/**
 The part of `pathlib` the service uses to name its output files: `str(PurePosixPath(d) / n)`.
 Joining keeps the components of the combined path, drops empty components and `.`
 components (so a trailing `/`, `//` and `/./` disappear), keeps `..`, and lets an absolute
 second operand replace the first. POSIX semantics: the Windows flavour is not modelled.
 */
module Paths {
  import opened Strings

  /** One path component as it is written: non-empty, not `.`, no separator. */
  predicate Plain(c: string) {
    c != "" && c != "." && '/' !in c
  }

  /** The components `pathlib` keeps from a `/`-split path. */
  function Components(parts: seq<string>): (cs: seq<string>)
    ensures forall c :: c in cs ==> c in parts && c != "" && c != "."
    ensures (forall c :: c in parts ==> c != "" && c != ".") ==> cs == parts
  {
    if |parts| == 0 then []
    else
      var rest := Components(parts[1..]);
      assert forall c :: c in parts[1..] ==> c in parts;
      assert parts[0] in parts && [parts[0]] + parts[1..] == parts;
      if parts[0] == "" || parts[0] == "." then rest else [parts[0]] + rest
  }

  /** The anchor of a POSIX path: exactly two leading slashes stay two, one or three and
      more become one, a relative path has none. */
  function Root(p: string): (r: string)
    ensures r in ["", "/", "//"]
    ensures r == "" <==> !StartsWith(p, "/")
  {
    if StartsWith(p, "//") && !StartsWith(p, "///") then "//"
    else if StartsWith(p, "/") then "/"
    else ""
  }

  /** `str(PurePosixPath(p))`: the anchor, then the kept components joined by `/`; `.`
      for a relative path with none. */
  function Normalize(p: string): string {
    var cs := Components(Split(p, '/'));
    if |cs| == 0 then (if Root(p) == "" then "." else Root(p))
    else Root(p) + Join(cs, '/')
  }

  /** `str(PurePosixPath(dir) / name)`. */
  function JoinPath(dir: string, name: string): string {
    if StartsWith(name, "/") then Normalize(name) else Normalize(dir + "/" + name)
  }

  lemma JoinPair(a: string, b: string)
    ensures Join([a, b], '/') == a + "/" + b
  {
    assert [a, b][1..] == [b];
  }

  /** A plain directory joined with a plain name is their concatenation around `/`. */
  lemma PlainJoin(dir: string, name: string)
    requires Plain(dir) && Plain(name)
    ensures JoinPath(dir, name) == dir + "/" + name
  {
    assert name[0] != '/';
    assert dir[0] != '/';
    SplitAtFirst(dir, name, '/');
    SplitWithoutSeparator(name, '/');
    assert Split(dir + "/" + name, '/') == [dir, name];
    JoinPair(dir, name);
  }

  /** A trailing `/` on a plain name is dropped. */
  lemma TrailingSlashDropped(dir: string, name: string)
    requires Plain(dir) && Plain(name)
    ensures JoinPath(dir, name + "/") == dir + "/" + name
  {
    var whole := dir + "/" + (name + "/");
    assert (name + "/")[0] != '/';
    assert whole[..1] == [dir[0]] && dir[0] != '/';
    assert Root(whole) == "";
    TrailingSplit(dir, name);
    EmptyLastDropped(dir, name);
    JoinPair(dir, name);
    assert JoinPath(dir, name + "/") == "" + Join([dir, name], '/');
  }

  lemma TrailingSplit(dir: string, name: string)
    requires '/' !in dir && '/' !in name
    ensures Split(dir + "/" + (name + "/"), '/') == [dir, name, ""]
  {
    assert dir + "/" + (name + "/") == dir + ['/'] + (name + ['/'] + "");
    SplitAtFirst(dir, name + ['/'] + "", '/');
    SplitAtFirst(name, "", '/');
    assert Split("", '/') == [""];
  }

  lemma EmptyLastDropped(dir: string, name: string)
    requires Plain(dir) && Plain(name)
    ensures Components([dir, name, ""]) == [dir, name]
  {
    assert [""][1..] == [];
    assert Components([""]) == [];
    assert [name, ""][1..] == [""];
    assert Components([name, ""]) == [name];
    assert [dir, name, ""][1..] == [name, ""];
  }

  lemma JoinStartsWithFirst(parts: seq<string>)
    requires |parts| > 0
    ensures StartsWith(Join(parts, '/'), parts[0])
  {
  }

  /** A joined path begins with the directory, or with `/` when `name` is absolute. */
  lemma JoinPathStart(dir: string, name: string)
    requires Plain(dir)
    ensures var p := JoinPath(dir, name);
            |p| > 0 && (p[0] == '/' || StartsWith(p, dir))
  {
    if StartsWith(name, "/") {
      var r := Root(name);
      assert r == "/" || r == "//";
      var cs := Components(Split(name, '/'));
      if |cs| > 0 {
        assert (r + Join(cs, '/'))[0] == r[0];
      }
    } else {
      var whole := dir + "/" + name;
      assert whole == dir + ['/'] + name;
      assert whole[..1] == [dir[0]] && dir[0] != '/';
      assert Root(whole) == "";
      SplitAtFirst(dir, name, '/');
      var parts := Split(whole, '/');
      assert parts == [dir] + Split(name, '/');
      assert parts[1..] == Split(name, '/');
      var cs := Components(parts);
      assert cs == [dir] + Components(parts[1..]);
      JoinStartsWithFirst(cs);
      assert JoinPath(dir, name) == "" + Join(cs, '/') == Join(cs, '/');
    }
  }
}
