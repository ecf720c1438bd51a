/** Progress figures a job reports: the `download:D/T` lines the worker's parser accepts
    from the downloader's output, and the clock-driven percentage shown while the
    transcoder runs. */
module Progress {
  import opened Options
  import opened Strings
  import opened Numeric

  /** The prefix the worker's parser requires in front of `D/T`. */
  const LinePrefix := "download:"

  /** `min(45, 5 + int((d / t) * 40))`: the download phase spans 5% to 45%. The division
      is exact here, where Python rounds to a float. */
  function DownloadPercent(downloaded: int, total: int): (p: int)
    requires total > 0
    ensures p <= 45
    ensures downloaded >= 0 ==> 5 <= p
    ensures downloaded >= total ==> p == 45
  {
    var share := downloaded as real / total as real;
    assert share * total as real == downloaded as real;
    assert downloaded >= 0 ==> share >= 0.0;
    assert downloaded >= total ==> share >= 1.0;
    Min(45, 5 + Truncate(share * 40.0))
  }

  /** Nothing downloaded yet reads as 5%. */
  lemma ZeroBytesIsFive(total: int)
    requires total > 0
    ensures DownloadPercent(0, total) == 5
  {
    assert 0 as real / total as real == 0.0;
  }

  /** More bytes downloaded never shows a smaller percentage for the same total. */
  lemma DownloadPercentMonotone(d1: int, d2: int, total: int)
    requires total > 0 && d1 <= d2
    ensures DownloadPercent(d1, total) <= DownloadPercent(d2, total)
  {
    var s1, s2 := d1 as real / total as real, d2 as real / total as real;
    assert s1 * total as real == d1 as real && s2 * total as real == d2 as real;
    assert s1 <= s2;
    TruncateMonotone(s1 * 40.0, s2 * 40.0);
  }

  /** The part after `download:`: `D/T` with exactly two non-empty `/`-fields that `int()`
      accepts and a positive total gives the percentage; anything else gives `None`. */
  function ParseProgressField(field: string): (r: Option<int>)
    ensures r.Some? ==> exists d, t :: t > 0 && r.value == DownloadPercent(d, t)
    ensures r.Some? ==> r.value <= 45
    ensures r.Some? <==>
              var fs := Split(field, '/');
              && |fs| == 2 && fs[0] != "" && fs[1] != ""
              && ParseInt(fs[0]).Some? && ParseInt(fs[1]).Some? && ParseInt(fs[1]).value > 0
    ensures r.Some? ==>
              var fs := Split(field, '/');
              |fs| == 2 && r.value == DownloadPercent(ParseInt(fs[0]).value, ParseInt(fs[1]).value)
  {
    if '/' !in field then SplitWithoutSeparator(field, '/'); None
    else
      var fields := Split(field, '/');
      if |fields| != 2 || |fields[0]| == 0 || |fields[1]| == 0 then None
      else match ParseInt(fields[1])
        case None => None
        case Some(t) =>
          if t <= 0 then None
          else match ParseInt(fields[0])
            case None => None
            case Some(d) => Some(DownloadPercent(d, t))
  }

  /** One line of downloader output: the new percentage, or `None` when the line is
      ignored — no `download:` prefix, no `/` in the second `:`-field, not exactly two
      `/`-fields, an empty field, a field `int()` rejects, or a total that is not positive. */
  function ParseDownloadLine(line: string): (r: Option<int>)
    ensures r.Some? ==> StartsWith(Strip(line), LinePrefix)
    ensures r.Some? ==> exists d, t :: t > 0 && r.value == DownloadPercent(d, t)
    ensures r.Some? ==> r.value <= 45
  {
    var text := Strip(line);
    if !StartsWith(text, LinePrefix) then None
    else
      var parts := Split(text, ':');
      if |parts| > 1 then ParseProgressField(parts[1]) else None
  }

  /** The `download:`-prefixed line the parser accepts for `d` of `t` bytes. */
  function DownloadLine(d: int, t: int): string {
    LinePrefix + (ShowInt(d) + ['/'] + ShowInt(t))
  }

  /** A `download:` line without padding keeps its shape through `strip()`, and its
      `:`-fields are the word `download` and the rest. */
  lemma LineFields(body: string)
    requires |body| > 0 && !IsSpace(body[|body| - 1]) && ':' !in body
    ensures Strip(LinePrefix + body) == LinePrefix + body
    ensures StartsWith(LinePrefix + body, LinePrefix)
    ensures Split(LinePrefix + body, ':') == ["download", body]
  {
    PrefixUnpadded(body);
    PrefixFields(body);
  }

  /** A `download:` line without padding and without further `:` is read by its field alone. */
  lemma LineField(body: string)
    requires |body| > 0 && !IsSpace(body[|body| - 1]) && ':' !in body
    ensures ParseDownloadLine(LinePrefix + body) == ParseProgressField(body)
  {
    LineFields(body);
  }

  lemma PrefixUnpadded(body: string)
    requires |body| > 0 && !IsSpace(body[|body| - 1])
    ensures Strip(LinePrefix + body) == LinePrefix + body
    ensures StartsWith(LinePrefix + body, LinePrefix)
  {
    var line := LinePrefix + body;
    assert line[..|LinePrefix|] == LinePrefix;
    assert !IsSpace(line[0]);
    assert line[|line| - 1] == body[|body| - 1];
    StripUnpadded(line);
  }

  lemma PrefixFields(body: string)
    requires ':' !in body
    ensures Split(LinePrefix + body, ':') == ["download", body]
  {
    assert LinePrefix + body == "download" + [':'] + body;
    assert ':' !in "download";
    SplitAtFirst("download", body, ':');
    SplitWithoutSeparator(body, ':');
  }

  /** Two `/`-separated fields split back into themselves. */
  lemma PairFields(a: string, b: string)
    requires '/' !in a && '/' !in b
    ensures Split(a + ['/'] + b, '/') == [a, b]
  {
    SplitAtFirst(a, b, '/');
    SplitWithoutSeparator(b, '/');
  }

  /** Decimal forms hold neither separator. */
  lemma ShowIntHasNoSeparator(n: int)
    ensures ':' !in ShowInt(n) && '/' !in ShowInt(n)
  {
  }

  /** A well-formed line for a positive total yields exactly the formula's percentage. */
  lemma DownloadLineRoundTrip(d: int, t: int)
    requires t > 0
    ensures ParseDownloadLine(DownloadLine(d, t)) == Some(DownloadPercent(d, t))
  {
    var a, b := ShowInt(d), ShowInt(t);
    ShowIntHasNoSeparator(d);
    ShowIntHasNoSeparator(t);
    var body := a + ['/'] + b;
    assert body[|a|] == '/';
    assert body[|body| - 1] == b[|b| - 1];
    LineField(body);
    PairFields(a, b);
    ParseShowInt(d);
    ParseShowInt(t);
  }

  /** The same line followed by whitespace (its newline, say) is read the same way. */
  lemma DownloadLineWithPadding(d: int, t: int, pad: string)
    requires t > 0
    requires forall k :: 0 <= k < |pad| ==> IsSpace(pad[k])
    ensures ParseDownloadLine(DownloadLine(d, t) + pad) == Some(DownloadPercent(d, t))
  {
    var line := DownloadLine(d, t);
    assert line[0] == 'd';
    assert line[|line| - 1] == ShowInt(t)[|ShowInt(t)| - 1];
    StripTrailingSpace(line, pad);
    DownloadLineRoundTrip(d, t);
    StripUnpaddedLine(d, t);
  }

  /** The bare line needs no stripping either. */
  lemma StripUnpaddedLine(d: int, t: int)
    ensures Strip(DownloadLine(d, t)) == DownloadLine(d, t)
  {
    var line := DownloadLine(d, t);
    assert line[0] == 'd';
    assert line[|line| - 1] == ShowInt(t)[|ShowInt(t)| - 1];
    StripUnpadded(line);
  }

  /** A bare `D/T` line, without the `download:` prefix, is ignored whatever its numbers. */
  lemma BareLineIgnored(d: int, t: int)
    ensures ParseDownloadLine(ShowInt(d) + ['/'] + ShowInt(t)) == None
  {
    var a := ShowInt(d);
    var line := a + ['/'] + ShowInt(t);
    assert line[0] == a[0];
    assert line[|line| - 1] == ShowInt(t)[|ShowInt(t)| - 1];
    StripUnpadded(line);
    assert !StartsWith(line, LinePrefix) by {
      if |line| >= |LinePrefix| {
        assert line[..|LinePrefix|][0] == a[0] != 'd';
      }
    }
  }

  /** A total that is zero or negative leaves the record alone. */
  lemma NonPositiveTotalIgnored(d: int, t: int)
    requires t <= 0
    ensures ParseDownloadLine(DownloadLine(d, t)) == None
  {
    var a, b := ShowInt(d), ShowInt(t);
    ShowIntHasNoSeparator(d);
    ShowIntHasNoSeparator(t);
    var body := a + ['/'] + b;
    assert body[|body| - 1] == b[|b| - 1];
    LineField(body);
    PairFields(a, b);
    ParseShowInt(t);
  }

  /** The downloader prints `NA` for an unknown total; such a line is ignored. */
  lemma UnknownTotalIgnored(d: int)
    ensures ParseDownloadLine(LinePrefix + (ShowInt(d) + ['/'] + "NA")) == None
  {
    var a := ShowInt(d);
    ShowIntHasNoSeparator(d);
    var body := a + ['/'] + "NA";
    assert body[|body| - 1] == 'A';
    assert ':' !in body;
    LineField(body);
    UnknownTotalField(a);
  }

  /** The field `D/NA` gives no percentage. */
  lemma UnknownTotalField(a: string)
    requires '/' !in a
    ensures ParseProgressField(a + ['/'] + "NA") == None
  {
    assert '/' !in "NA";
    PairFields(a, "NA");
    NaIsNotANumber();
  }

  /** `int("NA")` raises. */
  lemma NaIsNotANumber()
    ensures ParseInt("NA") == None
  {
    assert forall k :: 0 <= k < |"NA"| ==> !IsDigit("NA"[k]);
  }

  /** Three `/`-fields split into three parts. */
  lemma TripleFields(a: string, b: string, c: string)
    requires '/' !in a && '/' !in b && '/' !in c
    ensures |Split(a + ['/'] + b + ['/'] + c, '/')| == 3
  {
    assert a + ['/'] + b + ['/'] + c == a + ['/'] + (b + ['/'] + c);
    SplitAtFirst(a, b + ['/'] + c, '/');
    PairFields(b, c);
  }

  /** A third `/`-field makes Python's two-name unpacking fail, so the line is ignored. */
  lemma ExtraFieldIgnored(d: int, t: int, x: int)
    ensures ParseDownloadLine(LinePrefix + (ShowInt(d) + ['/'] + ShowInt(t) + ['/'] + ShowInt(x))) == None
  {
    var a, b, c := ShowInt(d), ShowInt(t), ShowInt(x);
    ShowIntHasNoSeparator(d);
    ShowIntHasNoSeparator(t);
    ShowIntHasNoSeparator(x);
    var body := a + ['/'] + b + ['/'] + c;
    assert body[|body| - 1] == c[|c| - 1];
    assert ':' !in body;
    LineField(body);
    TripleFields(a, b, c);
  }

  // ---- the transcoding phase ----

  /** Seconds the service expects a video transcode to take. */
  const VideoBudget: real := 30.0
  /** Seconds the service expects an audio transcode to take. */
  const AudioBudget: real := 20.0

  /** `min(90, 60 + int(elapsed / budget * 30))`: the transcoding phase spans 60% to 90%,
      reached once the expected duration has passed. */
  function ConvertPercent(elapsed: real, budget: real): (p: int)
    requires budget > 0.0
    ensures p <= 90
    ensures elapsed >= 0.0 ==> 60 <= p
    ensures elapsed >= budget ==> p == 90
  {
    var share := elapsed / budget;
    assert share * budget == elapsed;
    assert elapsed >= 0.0 ==> share >= 0.0;
    assert (share - 1.0) * budget == elapsed - budget;
    Min(90, 60 + Truncate(share * 30.0))
  }

  /** A later tick never shows a smaller percentage. */
  lemma ConvertPercentMonotone(e1: real, e2: real, budget: real)
    requires budget > 0.0 && e1 <= e2
    ensures ConvertPercent(e1, budget) <= ConvertPercent(e2, budget)
  {
    var s1, s2 := e1 / budget, e2 / budget;
    assert s1 * budget == e1 && s2 * budget == e2;
    assert s1 <= s2;
    TruncateMonotone(s1 * 30.0, s2 * 30.0);
  }
}
