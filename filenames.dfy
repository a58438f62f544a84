/** `sanitize_filename`: the regular-expression substitution of `_` for each forbidden character. */
module Filenames {

  /** The characters a file name may not hold: `\ / * ? : " < > |`. */
  predicate Forbidden(c: char) {
    c == '\\' || c == '/' || c == '*' || c == '?' || c == ':' || c == '"' || c == '<' || c == '>' || c == '|'
  }

  function Sanitize(name: string): string {
    if name == [] then []
    else [if Forbidden(name[0]) then '_' else name[0]] + Sanitize(name[1..])
  }

  /**
   * Every forbidden character becomes `_`; every other character stays where it
   * was, so the length is preserved and no forbidden character is left.
   */
  lemma {:induction false} SanitizeSpec(name: string)
    ensures |Sanitize(name)| == |name|
    ensures forall i :: 0 <= i < |name| ==> !Forbidden(Sanitize(name)[i])
    ensures forall i :: 0 <= i < |name| && Forbidden(name[i]) ==> Sanitize(name)[i] == '_'
    ensures forall i :: 0 <= i < |name| && !Forbidden(name[i]) ==> Sanitize(name)[i] == name[i]
    decreases |name|
  {
    if name != [] {
      SanitizeSpec(name[1..]);
      var r := Sanitize(name);
      assert forall i :: 1 <= i < |name| ==> r[i] == Sanitize(name[1..])[i - 1] && name[i] == name[1..][i - 1];
    }
  }

  /** A string without forbidden characters is left as it is. */
  lemma SanitizeFixesClean(name: string)
    requires forall i :: 0 <= i < |name| ==> !Forbidden(name[i])
    ensures Sanitize(name) == name
  {
    SanitizeSpec(name);
  }

  /** Sanitizing twice is sanitizing once. */
  lemma SanitizeIdempotent(name: string)
    ensures Sanitize(Sanitize(name)) == Sanitize(name)
  {
    SanitizeSpec(name);
    SanitizeFixesClean(Sanitize(name));
  }

  /**
   * `os.path.join(dir, name)` on a POSIX system: an absolute `name` replaces
   * `dir`; otherwise the result is `dir`, then a `/` unless `dir` is empty or
   * already ends with one, then `name`.
   */
  function PathJoin(dir: string, name: string): (r: string)
    ensures |name| > 0 && name[0] == '/' ==> r == name
    ensures (|name| == 0 || name[0] != '/') ==>
      && |r| >= |dir| + |name|
      && r[..|dir|] == dir
      && r[|r| - |name|..] == name
      && |r| - |dir| - |name| == (if dir != [] && dir[|dir| - 1] != '/' then 1 else 0)
      && (|r| > |dir| + |name| ==> r[|dir|] == '/')
  {
    if |name| > 0 && name[0] == '/' then name
    else if dir == [] || dir[|dir| - 1] == '/' then dir + name
    else dir + "/" + name
  }

  /**
   * A sanitized name holds no `/`, so joining it never escapes `dir`: the
   * result is `dir`, at most one separator, and the sanitized name.
   */
  lemma JoinSanitized(dir: string, name: string)
    ensures var r := PathJoin(dir, Sanitize(name));
      |r| >= |dir| + |name| && r[..|dir|] == dir && r[|r| - |name|..] == Sanitize(name)
  {
    SanitizeSpec(name);
    assert |Sanitize(name)| > 0 ==> !Forbidden(Sanitize(name)[0]);
  }

  /** `os.path.join(output_path, "%(title)s.%(ext)s")`: where yt-dlp writes a download. */
  function OutputTemplate(outputPath: string): string {
    PathJoin(outputPath, "%(title)s.%(ext)s")
  }
}
