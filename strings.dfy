/**
  String operations with the meaning the editor's JavaScript and Python code gives them:
  prefix and suffix tests (`startsWith`/`endswith`), substring search (`includes`, `indexOf`),
  first-occurrence replacement (`replace` with a string pattern), `slice(0, -1)` and `trim()`.
  Strings are sequences of characters.
 */
module Strings {

  datatype Option<T> = None | Some(value: T) {
    function GetOr(default: T): T {
      match this
      case Some(v) => v
      case None => default
    }
  }

  predicate StartsWith(s: string, p: string) {
    |p| <= |s| && s[..|p|] == p
  }

  predicate EndsWith(s: string, p: string) {
    |p| <= |s| && s[|s| - |p|..] == p
  }

  /** `t` occurs in `s` starting at index `i`. */
  predicate OccursAt(s: string, t: string, i: nat) {
    i + |t| <= |s| && s[i..i + |t|] == t
  }

  /** JavaScript `s.includes(t)`. */
  predicate Contains(s: string, t: string) {
    exists i: nat | i <= |s| :: OccursAt(s, t, i)
  }

  /** The first index at or after `i` at which `t` occurs in `s`, if any. */
  function IndexFrom(s: string, t: string, i: nat): (r: Option<nat>)
    ensures r.Some? ==> i <= r.value && OccursAt(s, t, r.value)
    ensures r.Some? ==> forall j: nat :: i <= j < r.value ==> !OccursAt(s, t, j)
    ensures r.None? ==> forall j: nat :: i <= j ==> !OccursAt(s, t, j)
    decreases |s| - i
  {
    if |s| < i + |t| then None
    else if s[i..i + |t|] == t then Some(i)
    else IndexFrom(s, t, i + 1)
  }

  /** JavaScript `s.indexOf(t)`: the first index at which `t` occurs, if any. */
  function IndexOf(s: string, t: string): (r: Option<nat>)
    ensures r.Some? ==> OccursAt(s, t, r.value)
    ensures r.Some? ==> forall j: nat :: j < r.value ==> !OccursAt(s, t, j)
    ensures r.None? <==> !Contains(s, t)
  {
    IndexFrom(s, t, 0)
  }

  /** An occurrence with none before it is the one `IndexOf` finds. */
  lemma FirstOccurrence(s: string, t: string, k: nat)
    requires OccursAt(s, t, k)
    requires forall j: nat :: j < k ==> !OccursAt(s, t, j)
    ensures IndexOf(s, t) == Some(k)
  {
    assert k <= |s|;
  }

  /** A prefix is found at index 0. */
  lemma PrefixFoundFirst(s: string, p: string)
    requires StartsWith(s, p)
    ensures IndexOf(s, p) == Some(0)
  {
    assert s[0..|p|] == p;
    FirstOccurrence(s, p, 0);
  }

  /** JavaScript `s.replace(t, u)` for a string pattern `t`: only the first occurrence is replaced. */
  function ReplaceFirst(s: string, t: string, u: string): (r: string)
    ensures !Contains(s, t) ==> r == s
    ensures Contains(s, t) ==> |r| == |s| - |t| + |u|
  {
    match IndexOf(s, t)
    case None => s
    case Some(i) => s[..i] + u + s[i + |t|..]
  }

  /** Removing the occurrence `IndexOf` finds joins the text around it. */
  lemma RemoveAt(s: string, t: string, k: nat)
    requires IndexOf(s, t) == Some(k)
    ensures ReplaceFirst(s, t, "") == s[..k] + s[k + |t|..]
  {
    assert s[..k] + "" == s[..k];
  }

  /** Removing a prefix with `replace` leaves the rest of the string. */
  lemma RemovePrefix(s: string, p: string)
    requires StartsWith(s, p)
    ensures ReplaceFirst(s, p, "") == s[|p|..]
  {
    PrefixFoundFirst(s, p);
    RemoveAt(s, p, 0);
    assert s[..0] + s[|p|..] == s[|p|..];
  }

  /** JavaScript `s.slice(0, -1)`: drops the last character; the empty string stays empty. */
  function DropLast(s: string): (r: string)
    ensures s == [] ==> r == []
    ensures s != [] ==> r + [s[|s| - 1]] == s
  {
    if s == [] then s else s[..|s| - 1]
  }

  /** The characters `trim()` removes: ECMAScript WhiteSpace and LineTerminator. */
  predicate IsSpace(c: char) {
    || c == '\t' || c == '\n' || c == '\U{000B}' || c == '\U{000C}' || c == '\r' || c == ' '
    || c == '\U{00A0}' || c == '\U{1680}' || ('\U{2000}' <= c <= '\U{200A}')
    || c == '\U{2028}' || c == '\U{2029}' || c == '\U{202F}' || c == '\U{205F}'
    || c == '\U{3000}' || c == '\U{FEFF}'
  }

  predicate AllSpace(s: string) {
    forall i :: 0 <= i < |s| ==> IsSpace(s[i])
  }

  /** The first index at or after `i` whose character is not a space, or `|s|`. */
  function SolidFrom(s: string, i: nat): (a: nat)
    requires i <= |s|
    ensures i <= a <= |s|
    ensures forall k :: i <= k < a ==> IsSpace(s[k])
    ensures a < |s| ==> !IsSpace(s[a])
    decreases |s| - i
  {
    if i < |s| && IsSpace(s[i]) then SolidFrom(s, i + 1) else i
  }

  /** One past the last character before `j`, but not before `lo`, that is not a space, or `lo`. */
  function SolidUntil(s: string, lo: nat, j: nat): (b: nat)
    requires lo <= j <= |s|
    ensures lo <= b <= j
    ensures forall k :: b <= k < j ==> IsSpace(s[k])
    ensures b > lo ==> !IsSpace(s[b - 1])
    decreases j
  {
    if j > lo && IsSpace(s[j - 1]) then SolidUntil(s, lo, j - 1) else j
  }

  /** Where the text of `s` starts, after its leading spaces. */
  function TextStart(s: string): nat
    ensures TextStart(s) <= |s|
  {
    SolidFrom(s, 0)
  }

  /** Where the text of `s` ends, before its trailing spaces. */
  function TextEnd(s: string): nat
    ensures TextStart(s) <= TextEnd(s) <= |s|
  {
    SolidUntil(s, TextStart(s), |s|)
  }

  /** JavaScript `s.trim()`: `s` without its leading and trailing spaces. */
  function Trim(s: string): string {
    s[TextStart(s)..TextEnd(s)]
  }

  /** What is left of the string once spaces are trimmed from both ends. */
  predicate Trimmed(x: string) {
    x == [] || (!IsSpace(x[0]) && !IsSpace(x[|x| - 1]))
  }

  lemma AllSpaceAppend(u: string, v: string)
    requires AllSpace(u) && AllSpace(v)
    ensures AllSpace(u + v)
  {
    assert forall i :: |u| <= i < |u + v| ==> (u + v)[i] == v[i - |u|];
  }

  /** The spaces `trim()` removes in front of the text. */
  lemma LeadIsSpace(s: string)
    ensures AllSpace(s[..TextStart(s)])
  {
    var lead := s[..TextStart(s)];
    assert forall k :: 0 <= k < |lead| ==> lead[k] == s[k];
  }

  /** The spaces `trim()` removes after the text. */
  lemma TrailIsSpace(s: string)
    ensures AllSpace(s[TextEnd(s)..])
  {
    var b := TextEnd(s);
    var trail := s[b..];
    assert forall k :: 0 <= k < |trail| ==> trail[k] == s[b + k];
  }

  /** What `trim()` keeps neither starts nor ends with a space. */
  lemma TrimIsTrimmed(s: string)
    ensures Trimmed(Trim(s))
  {
    var a, b := TextStart(s), TextEnd(s);
    if a < b {
      assert Trim(s)[0] == s[a];
      assert Trim(s)[b - a - 1] == s[b - 1];
    }
  }

  lemma SplitThree(s: string, a: nat, b: nat)
    requires a <= b <= |s|
    ensures s == s[..a] + s[a..b] + s[b..]
  {
  }

  /** `s` is its leading spaces, its trimmed text and its trailing spaces. */
  lemma TrimSplits(s: string)
    ensures var a, b := TextStart(s), TextEnd(s);
      && s == s[..a] + Trim(s) + s[b..]
      && AllSpace(s[..a]) && AllSpace(s[b..]) && Trimmed(Trim(s))
  {
    SplitThree(s, TextStart(s), TextEnd(s));
    LeadIsSpace(s);
    TrailIsSpace(s);
    TrimIsTrimmed(s);
  }

  lemma Regroup(p: string, l: string, m: string, t: string, q: string)
    ensures p + (l + m + t) + q == (p + l) + m + (t + q)
  {
  }

  /** Trimming spaces from around text that neither starts nor ends with a space gives that text. */
  lemma TrimOfPadded(p: string, x: string, q: string)
    requires AllSpace(p) && AllSpace(q) && Trimmed(x)
    ensures Trim(p + x + q) == x
  {
    var s := p + x + q;
    assert forall k :: 0 <= k < |p| ==> s[k] == p[k];
    assert forall k :: |p| + |x| <= k < |s| ==> s[k] == q[k - |p| - |x|];
    if x == [] {
      assert forall k :: 0 <= k < |s| ==> IsSpace(s[k]);
      assert TextStart(s) == |s|;
    } else {
      assert s[|p|] == x[0] && s[|p| + |x| - 1] == x[|x| - 1];
      assert TextStart(s) == |p|;
      assert TextEnd(s) == |p| + |x|;
      assert s[|p|..|p| + |x|] == x;
    }
  }

  /** Spaces around a string make no difference to its trimmed form. */
  lemma TrimIgnoresPadding(p: string, x: string, q: string)
    requires AllSpace(p) && AllSpace(q)
    ensures Trim(p + x + q) == Trim(x)
  {
    TrimSplits(x);
    var lead, trail := x[..TextStart(x)], x[TextEnd(x)..];
    AllSpaceAppend(p, lead);
    AllSpaceAppend(trail, q);
    Regroup(p, lead, Trim(x), trail, q);
    TrimOfPadded(p + lead, Trim(x), trail + q);
  }

  /** One leading space makes no difference to the trimmed form. */
  lemma TrimAfterSpace(s: string)
    ensures Trim(" " + s) == Trim(s)
  {
    assert AllSpace(" ") && " " + s + [] == " " + s;
    TrimIgnoresPadding(" ", s, []);
  }

  /** `s.trim()` is empty exactly when `s` is made of spaces only. */
  lemma TrimEmptyIffAllSpace(s: string)
    ensures Trim(s) == [] <==> AllSpace(s)
  {
    TrimSplits(s);
    AllSpaceAppend(s[..TextStart(s)], s[TextEnd(s)..]);
    if AllSpace(s) {
      assert s + [] + [] == s;
      TrimOfPadded(s, [], []);
    }
  }
}
