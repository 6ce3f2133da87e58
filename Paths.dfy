/** The normalisation of check paths: `url.trim('/')`, refused when the
    result is blank. */
module Paths {
  import opened Wrappers

  predicate AllSlashes(s: string) {
    forall i :: 0 <= i < |s| ==> s[i] == '/'
  }

  /** `n` slashes. */
  function Slashes(n: nat): (s: string)
    ensures |s| == n && AllSlashes(s)
  {
    seq(n, _ => '/')
  }

  /** Neither begins nor ends with a slash. */
  predicate Trimmed(s: string) {
    s == [] || (s[0] != '/' && s[|s| - 1] != '/')
  }

  /** Kotlin's `Char.isWhitespace()` on the JVM: `Character.isWhitespace` or
      `Character.isSpaceChar`, that is the controls TAB to CR and FS to US,
      and the space, line and paragraph separators of Unicode. */
  predicate IsWhitespace(c: char) {
    || ('\t' <= c <= '\r')
    || ('\U{1C}' <= c <= '\U{1F}')
    || c == ' ' || c == '\U{A0}' || c == '\U{1680}'
    || ('\U{2000}' <= c <= '\U{200A}')
    || c == '\U{2028}' || c == '\U{2029}'
    || c == '\U{202F}' || c == '\U{205F}' || c == '\U{3000}'
  }

  /** Kotlin's `isBlank()`: empty or whitespace only. */
  predicate IsBlank(s: string) {
    forall i :: 0 <= i < |s| ==> IsWhitespace(s[i])
  }

  /** What a registry key looks like. */
  predicate IsNormalPath(s: string) {
    Trimmed(s) && !IsBlank(s)
  }

  /** The leading half of `trim('/')`: skip slashes from the front. */
  function DropLeadingSlashes(s: string): (r: string)
    ensures |r| <= |s| && r == s[|s| - |r|..]
    ensures AllSlashes(s[..|s| - |r|])
    ensures r == [] || r[0] != '/'
  {
    if s != [] && s[0] == '/' then DropLeadingSlashes(s[1..]) else s
  }

  /** The trailing half of `trim('/')`: skip slashes from the back. */
  function DropTrailingSlashes(s: string): (r: string)
    ensures |r| <= |s| && r == s[..|r|]
    ensures AllSlashes(s[|r|..])
    ensures r == [] || r[|r| - 1] != '/'
  {
    if s != [] && s[|s| - 1] == '/' then DropTrailingSlashes(s[..|s| - 1]) else s
  }

  /** `String.trim('/')`: the input without its leading and trailing runs of
      slashes. */
  function TrimSlashes(s: string): (r: string)
    ensures Trimmed(r)
    ensures exists a: nat, b: nat :: s == Slashes(a) + r + Slashes(b)
  {
    var t := DropLeadingSlashes(s);
    var r := DropTrailingSlashes(t);
    Glue(s, t, r);
    r
  }

  /** A slash run, then `t`; and `t` is `r`, then a slash run. */
  lemma Glue(s: string, t: string, r: string)
    requires |t| <= |s| && t == s[|s| - |t|..] && AllSlashes(s[..|s| - |t|])
    requires |r| <= |t| && r == t[..|r|] && AllSlashes(t[|r|..])
    ensures s == Slashes(|s| - |t|) + r + Slashes(|t| - |r|)
    ensures r == [] || r[0] == t[0]
  {
    assert s[..|s| - |t|] == Slashes(|s| - |t|);
    assert t[|r|..] == Slashes(|t| - |r|);
    assert s == s[..|s| - |t|] + t;
    assert t == r + t[|r|..];
  }

  /** The decomposition is unique: whatever run of slashes surrounds a
      trimmed, non-empty core, trimming returns exactly that core. */
  lemma {:induction false} TrimSlashesOf(a: nat, k: string, b: nat)
    requires Trimmed(k) && k != []
    ensures TrimSlashes(Slashes(a) + k + Slashes(b)) == k
  {
    var s := Slashes(a) + k + Slashes(b);
    var t := DropLeadingSlashes(s);
    DropLeadingOf(a, k + Slashes(b));
    assert s == Slashes(a) + (k + Slashes(b));
    assert t == k + Slashes(b);
    DropTrailingOf(k, b);
  }

  lemma {:induction false} DropLeadingOf(a: nat, u: string)
    requires u == [] || u[0] != '/'
    ensures DropLeadingSlashes(Slashes(a) + u) == u
  {
    if a > 0 {
      assert (Slashes(a) + u)[1..] == Slashes(a - 1) + u;
      DropLeadingOf(a - 1, u);
    } else {
      assert Slashes(a) + u == u;
    }
  }

  lemma {:induction false} DropTrailingOf(k: string, b: nat)
    requires k == [] || k[|k| - 1] != '/'
    ensures DropTrailingSlashes(k + Slashes(b)) == k
  {
    if b > 0 {
      assert (k + Slashes(b))[..|k| + b - 1] == k + Slashes(b - 1);
      DropTrailingOf(k, b - 1);
    } else {
      assert k + Slashes(b) == k;
    }
  }

  /** Trimming leaves nothing exactly when the input is all slashes
      (`""`, `"/"`, `"///"`). */
  lemma TrimSlashesEmpty(s: string)
    ensures TrimSlashes(s) == [] <==> AllSlashes(s)
  {
    var r := TrimSlashes(s);
    var a: nat, b: nat :| s == Slashes(a) + r + Slashes(b);
    if r == [] {
      assert s == Slashes(a) + Slashes(b);
      forall i | 0 <= i < |s| ensures s[i] == '/' {
        if i < a { assert s[i] == Slashes(a)[i]; } else { assert s[i] == Slashes(b)[i - a]; }
      }
    } else {
      assert s[a] == r[0];
    }
  }

  /** Trimming twice is trimming once. */
  lemma TrimSlashesIdempotent(s: string)
    ensures TrimSlashes(TrimSlashes(s)) == TrimSlashes(s)
  {
    var r := TrimSlashes(s);
    if r == [] {
      assert AllSlashes(r);
      TrimSlashesEmpty(r);
    } else {
      TrimSlashesOf(0, r, 0);
      assert Slashes(0) + r + Slashes(0) == r;
    }
  }

  /** `normalizeURL`: the slash-trimmed path, or InvalidPath when that is
      blank. */
  function NormalizeURL(url: string): (r: Result<string>)
    ensures r.Err? <==> IsBlank(TrimSlashes(url))
    ensures r.Err? ==> r.error == InvalidPath
    ensures r.Ok? ==> IsNormalPath(r.value)
    ensures r.Ok? ==> exists a: nat, b: nat :: url == Slashes(a) + r.value + Slashes(b)
  {
    var t := TrimSlashes(url);
    if IsBlank(t) then Err(InvalidPath) else Ok(t)
  }

  /** A path made only of slashes is refused. */
  lemma NormalizeURLAllSlashes(url: string)
    requires AllSlashes(url)
    ensures NormalizeURL(url) == Err(InvalidPath)
  {
    TrimSlashesEmpty(url);
  }

  /** A normalised path normalises to itself. */
  lemma NormalizeURLIdempotent(url: string)
    requires NormalizeURL(url).Ok?
    ensures NormalizeURL(NormalizeURL(url).value) == NormalizeURL(url)
  {
    TrimSlashesIdempotent(url);
  }

  /** `"/healthz/"`, `"/healthz"`, `"healthz"` and every other way of wrapping
      a key in slashes name that key. */
  lemma NormalizeURLVariants(a: nat, key: string, b: nat)
    requires IsNormalPath(key)
    ensures NormalizeURL(Slashes(a) + key + Slashes(b)) == Ok(key)
  {
    TrimSlashesOf(a, key, b);
  }
}
