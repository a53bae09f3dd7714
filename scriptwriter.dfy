/** The guard and normalisation at the start of
    UnityMCPScriptWriter.WriteScript: a relative path is refused when it is
    blank, contains `..` or `:`, or is rooted; otherwise backslashes become
    slashes, leading slashes go, and the asset path is the result under
    `Assets/Generated`. Writing the file and importing the asset are not
    modelled. */
module ScriptWriter {
  import opened Wrappers
  import opened Text

  /** GENERATED_ROOT. */
  const GeneratedRoot: string := "Assets/Generated"

  /** The operating system whose Path.IsPathRooted applies. */
  datatype Platform = Windows | Unix

  predicate IsAsciiLetter(c: char) {
    ('a' <= c <= 'z') || ('A' <= c <= 'Z')
  }

  /** Path.IsPathRooted: on Unix a leading `/`; on Windows a leading `/` or
      `\`, or a drive letter and a colon. */
  predicate IsPathRooted(platform: Platform, s: string) {
    match platform
    case Unix => |s| > 0 && s[0] == '/'
    case Windows => (|s| > 0 && (s[0] == '/' || s[0] == '\\')) || (|s| >= 2 && IsAsciiLetter(s[0]) && s[1] == ':')
  }

  /** string.IsNullOrWhiteSpace. */
  predicate IsNullOrWhiteSpace(s: Option<string>) {
    s.None? || forall k :: 0 <= k < |s.value| ==> IsWhiteSpace(s.value[k])
  }

  /** Backslashes turned into slashes, then leading slashes dropped. */
  function Normalize(s: string): (r: string)
    ensures forall k :: 0 <= k < |r| ==> r[k] != '\\'
    ensures r == [] || r[0] != '/'
  {
    TrimStart(ReplaceChar(s, '\\', '/'), '/')
  }

  /** Which of the two exceptions WriteScript throws first, if any. */
  datatype Checked = Accepted(assetPath: string) | Refused(message: string)

  function InvalidPathMessage(p: string): string {
    "Invalid path '" + p + "'. Paths must be relative and cannot contain traversal characters."
  }

  /** `finalAssetPath` of WriteScript, or the exception thrown before it is formed. */
  function AssetPath(platform: Platform, relativePath: Option<string>): (r: Checked)
    ensures r.Accepted? <==> !IsNullOrWhiteSpace(relativePath) && !Contains(relativePath.value, "..")
                             && !Contains(relativePath.value, ":") && !IsPathRooted(platform, relativePath.value)
    ensures IsNullOrWhiteSpace(relativePath) ==> r == Refused("Path cannot be empty")
  {
    if IsNullOrWhiteSpace(relativePath) then Refused("Path cannot be empty")
    else
      var p := relativePath.value;
      if Contains(p, "..") || Contains(p, ":") || IsPathRooted(platform, p) then Refused(InvalidPathMessage(p))
      else Accepted(GeneratedRoot + "/" + Normalize(p))
  }

  /** Normalisation only turns `\` into `/` and drops a prefix, so every
      other character of the result is a character of the input, in the
      input's order. */
  lemma NormalizeMapsInput(s: string) returns (d: nat)
    ensures d <= |s| && |Normalize(s)| == |s| - d
    ensures forall k :: 0 <= k < |Normalize(s)| ==>
              Normalize(s)[k] == (if s[d + k] == '\\' then '/' else s[d + k])
  {
    var m := ReplaceChar(s, '\\', '/');
    d := |m| - |Normalize(s)|;
  }

  /** Normalising twice is normalising once. */
  lemma NormalizeIdempotent(s: string)
    ensures Normalize(Normalize(s)) == Normalize(s)
  {
    var n := Normalize(s);
    assert ReplaceChar(n, '\\', '/') == n;
  }

  /** The characters an accepted path cannot hold stay out of its normal form. */
  lemma NormalFormIsClean(p: string)
    requires !Contains(p, "..") && !Contains(p, ":")
    ensures var n := Normalize(p);
            && (forall i :: 0 <= i < |n| - 1 ==> !(n[i] == '.' && n[i + 1] == '.'))
            && (forall i :: 0 <= i < |n| ==> n[i] != ':')
  {
    var n := Normalize(p);
    var d := NormalizeMapsInput(p);
    PairAbsent(p, '.', '.');
    ContainsChar(p, ':');
    forall i | 0 <= i < |n| - 1
      ensures !(n[i] == '.' && n[i + 1] == '.')
    {
      assert !(p[d + i] == '.' && p[d + i + 1] == '.');
    }
    forall i | 0 <= i < |n|
      ensures n[i] != ':'
    {
      assert p[d + i] in p;
    }
  }

  /** An accepted asset path lies under `Assets/Generated/` and contains no
      `..`, no `:` and no `\`. */
  lemma AcceptedPathIsSafe(platform: Platform, relativePath: Option<string>)
    requires AssetPath(platform, relativePath).Accepted?
    ensures var r := AssetPath(platform, relativePath).assetPath;
            && StartsWith(r, "Assets/Generated/")
            && r[|"Assets/Generated/"|..] == Normalize(relativePath.value)
            && !Contains(r, "..") && !Contains(r, ":")
            && forall k :: 0 <= k < |r| ==> r[k] != '\\'
  {
    NormalFormIsClean(relativePath.value);
    UnderRootIsClean(Normalize(relativePath.value));
  }

  lemma UnderRootIsClean(n: string)
    requires forall i :: 0 <= i < |n| - 1 ==> !(n[i] == '.' && n[i + 1] == '.')
    requires forall i :: 0 <= i < |n| ==> n[i] != ':' && n[i] != '\\'
    ensures var r := GeneratedRoot + "/" + n;
            && StartsWith(r, "Assets/Generated/") && r[|"Assets/Generated/"|..] == n
            && !Contains(r, "..") && !Contains(r, ":")
            && forall k :: 0 <= k < |r| ==> r[k] != '\\'
  {
    var prefix := "Assets/Generated/";
    var r := GeneratedRoot + "/" + n;
    assert r == prefix + n;
    forall i | 0 <= i < |r| - 1
      ensures !(r[i] == '.' && r[i + 1] == '.')
    {
      if i >= |prefix| {
        assert r[i] == n[i - |prefix|] && r[i + 1] == n[i - |prefix| + 1];
      }
    }
    PairNowhere(r, '.', '.');
    forall i | 0 <= i < |r|
      ensures r[i] != ':' && r[i] != '\\'
    {
      if i >= |prefix| {
        assert r[i] == n[i - |prefix|];
      }
    }
    ContainsChar(r, ':');
    assert r[..|prefix|] == prefix && r[|prefix|..] == n;
  }

  /** Checking the normalised form of an accepted path again accepts it with
      the same asset path, on either platform, unless normalisation left
      only blanks. */
  lemma AcceptedPathIsStable(platform: Platform, p: string)
    requires AssetPath(platform, Some(p)).Accepted?
    requires !IsNullOrWhiteSpace(Some(Normalize(p)))
    ensures AssetPath(platform, Some(Normalize(p))) == AssetPath(platform, Some(p))
  {
    var n := Normalize(p);
    NormalFormIsClean(p);
    PairNowhere(n, '.', '.');
    ContainsChar(n, ':');
    NormalizeIdempotent(p);
  }

  /** On Windows a leading `\` or `/` is refused as rooted, so the TrimStart
      of an accepted path never removes anything. */
  lemma WindowsTrimsNothing(p: string)
    requires AssetPath(Windows, Some(p)).Accepted?
    ensures Normalize(p) == ReplaceChar(p, '\\', '/')
  {
  }

  /** On Unix a leading backslash is not rooted: it is accepted and then
      trimmed away. */
  lemma UnixLeadingBackslashTrimmed()
    ensures AssetPath(Unix, Some("\\a.cs")) == Accepted("Assets/Generated/a.cs")
    ensures AssetPath(Windows, Some("\\a.cs")).Refused?
  {
    BackslashPathChecks();
    BackslashNormalForm();
  }

  lemma BackslashPathChecks()
    ensures var p := "\\a.cs";
            && !IsNullOrWhiteSpace(Some(p)) && !Contains(p, "..") && !Contains(p, ":")
            && !IsPathRooted(Unix, p) && IsPathRooted(Windows, p)
  {
    var p := "\\a.cs";
    PairNowhere(p, '.', '.');
    ContainsChar(p, ':');
    assert !IsWhiteSpace(p[1]);
  }

  lemma BackslashNormalForm()
    ensures Normalize("\\a.cs") == "a.cs"
  {
    assert ReplaceChar("\\a.cs", '\\', '/') == "/a.cs";
    assert TrimStart("/a.cs", '/') == TrimStart("a.cs", '/');
  }

  /** A lone backslash passes every check on Unix and normalises to
      nothing, so the asset path is the bare folder `Assets/Generated/`.
      The resolved-path check that WriteScript makes next is not part of
      this model. */
  lemma UnixLoneBackslashNamesFolder()
    ensures AssetPath(Unix, Some("\\")) == Accepted("Assets/Generated/")
    ensures AssetPath(Windows, Some("\\")).Refused?
  {
    var p := "\\";
    PairNowhere(p, '.', '.');
    ContainsChar(p, ':');
    assert !IsWhiteSpace(p[0]);
    assert ReplaceChar(p, '\\', '/') == "/";
    assert TrimStart("/", '/') == TrimStart("", '/');
  }
}
