/** String operations the handlers rely on: substring search (Prisma's
    `contains`, with `mode: 'insensitive'`), `Array.prototype.join`, and a
    split on a separator that undoes a join. */
module Text {
  import opened Http

  /** `sub` occurs in `s` at position `i`. */
  predicate Occurs(s: string, sub: string, i: int) {
    0 <= i && i + |sub| <= |s| && s[i..i + |sub|] == sub
  }

  lemma OccursShift(s: string, sub: string, k: int)
    requires |s| > 0 && k >= 0
    ensures Occurs(s[1..], sub, k) <==> Occurs(s, sub, k + 1)
  {
    if 0 <= k && k + |sub| <= |s[1..]| {
      assert s[1..][k..k + |sub|] == s[k + 1..k + 1 + |sub|];
    }
  }

  /** The first position at which `sub` occurs in `s`. */
  function IndexOf(s: string, sub: string): (r: Option<nat>)
    ensures r.Some? ==> Occurs(s, sub, r.value)
    ensures r.Some? ==> forall j :: 0 <= j < r.value ==> !Occurs(s, sub, j)
    ensures r.None? ==> forall j :: !Occurs(s, sub, j)
    decreases |s|
  {
    if sub <= s then
      assert s[0..|sub|] == sub;
      Some(0)
    else if |s| == 0 then None
    else
      var rest := IndexOf(s[1..], sub);
      assert forall j :: j >= 1 ==> (Occurs(s, sub, j) <==> Occurs(s[1..], sub, j - 1)) by {
        forall j | j >= 1 ensures Occurs(s, sub, j) <==> Occurs(s[1..], sub, j - 1) {
          OccursShift(s, sub, j - 1);
        }
      }
      assert !Occurs(s, sub, 0);
      match rest
      case None => None
      case Some(k) => Some(k + 1)
  }

  /** `s` contains `sub` (Prisma's case-sensitive `contains`). */
  predicate Contains(s: string, sub: string) {
    IndexOf(s, sub).Some?
  }

  /** Upper-case ASCII letters fold to lower case; everything else stays. */
  function LowerChar(c: char): char {
    if 'A' <= c <= 'Z' then (c as int - 'A' as int + 'a' as int) as char else c
  }

  function Lower(s: string): (r: string)
    ensures |r| == |s|
    ensures forall i :: 0 <= i < |s| ==> r[i] == LowerChar(s[i])
  {
    if s == [] then [] else [LowerChar(s[0])] + Lower(s[1..])
  }

  /** `{ contains: needle, mode: 'insensitive' }`: the needle occurs in the
      haystack once both are folded to lower case. */
  predicate ContainsInsensitive(haystack: string, needle: string) {
    Contains(Lower(haystack), Lower(needle))
  }

  /** `ContainsInsensitive` ignores the case of both strings. */
  lemma InsensitiveIgnoresCase(h: string, n: string)
    ensures ContainsInsensitive(h, n) <==> exists i :: Occurs(Lower(h), Lower(n), i)
    ensures ContainsInsensitive(Lower(h), n) == ContainsInsensitive(h, n)
    ensures ContainsInsensitive(h, Lower(n)) == ContainsInsensitive(h, n)
  {
    LowerIdempotent(h);
    LowerIdempotent(n);
  }

  lemma LowerIdempotent(s: string)
    ensures Lower(Lower(s)) == Lower(s)
  {
  }

  /** `parts.join(sep)`. */
  function Join(parts: seq<string>, sep: string): string {
    if |parts| == 0 then ""
    else if |parts| == 1 then parts[0]
    else parts[0] + sep + Join(parts[1..], sep)
  }

  /** `s.split(sep)`: the pieces between the leftmost non-overlapping
      occurrences of a non-empty separator. */
  function Split(s: string, sep: string): (r: seq<string>)
    requires |sep| > 0
    ensures |r| > 0
    decreases |s|
  {
    match IndexOf(s, sep)
    case None => [s]
    case Some(i) => [s[..i]] + Split(s[i + |sep|..], sep)
  }

  /** A piece that a join can be undone around: it does not contain the
      separator and it ends in a character the separator does not use, so no
      occurrence of the separator can start inside it. */
  predicate Separable(p: string, sep: string) {
    !Contains(p, sep) && |p| > 0 && p[|p| - 1] !in sep
  }

  /** The leftmost separator in `p + sep + rest` is the one the join put there. */
  lemma FirstSeparator(p: string, sep: string, rest: string)
    requires |sep| > 0 && Separable(p, sep)
    ensures IndexOf(p + sep + rest, sep) == Some(|p|)
  {
    var s := p + sep + rest;
    assert s[|p|..|p| + |sep|] == sep;
    forall j | 0 <= j < |p| ensures !Occurs(s, sep, j) {
      if j + |sep| <= |p| {
        assert p[j..j + |sep|] == s[j..j + |sep|];
        assert !Occurs(p, sep, j);
      } else {
        assert s[|p| - 1] == p[|p| - 1] && p[|p| - 1] !in sep;
      }
    }
    assert Occurs(s, sep, |p|);
  }

  /** Splitting undoes joining: joined pieces that are separable come back
      one for one, in order. */
  lemma {:induction false} SplitJoin(parts: seq<string>, sep: string)
    requires |sep| > 0 && |parts| > 0
    requires forall k :: 0 <= k < |parts| ==> Separable(parts[k], sep)
    ensures Split(Join(parts, sep), sep) == parts
  {
    if |parts| == 1 {
      assert !Contains(parts[0], sep);
    } else {
      var rest := Join(parts[1..], sep);
      FirstSeparator(parts[0], sep, rest);
      var s := parts[0] + sep + rest;
      assert Join(parts, sep) == s;
      assert s[..|parts[0]|] == parts[0];
      assert s[|parts[0]| + |sep|..] == rest;
      assert Split(s, sep) == [parts[0]] + Split(rest, sep);
      assert forall k :: 0 <= k < |parts[1..]| ==> Separable(parts[1..][k], sep) by {
        forall k | 0 <= k < |parts[1..]| ensures Separable(parts[1..][k], sep) {
          assert parts[1..][k] == parts[k + 1];
        }
      }
      SplitJoin(parts[1..], sep);
      assert parts == [parts[0]] + parts[1..];
    }
  }
}
