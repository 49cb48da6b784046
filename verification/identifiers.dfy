/**
 * Identifiers name the classes of the container, the wildcard rule `*`, and
 * virtual named rules (`$Name`, `[Name]`). Every lookup compares identifiers
 * after normalisation: leading namespace separators are dropped and ASCII
 * letters are folded to lower case, so `\Foo\A`, `Foo\A` and `foo\a` are the
 * same identifier.
 */
module Identifiers {

  /** The identifier of the default rule every other rule is based on. */
  const Wildcard: string := "*"

  /** The namespace separator. */
  const Separator: char := '\\'

  predicate IsUpper(c: char) {
    'A' <= c <= 'Z'
  }

  function LowerChar(c: char): char {
    if IsUpper(c) then (c as int + 32) as char else c
  }

  /** ASCII lower-casing, character by character. */
  function Lower(s: string): string {
    if |s| == 0 then [] else [LowerChar(s[0])] + Lower(s[1..])
  }

  /** Drops every leading namespace separator. */
  function StripSeparators(s: string): string
    decreases |s|
  {
    if |s| > 0 && s[0] == Separator then StripSeparators(s[1..]) else s
  }

  /** Lower-casing maps every character and keeps the length. */
  lemma {:induction false} LowerSpec(s: string)
    ensures |Lower(s)| == |s|
    ensures forall i :: 0 <= i < |s| ==> Lower(s)[i] == LowerChar(s[i])
    decreases |s|
  {
    if |s| > 0 {
      LowerSpec(s[1..]);
    }
  }

  /** Stripping removes a prefix of separators and nothing else. */
  lemma {:induction false} StripSpec(s: string)
    ensures var r := StripSeparators(s);
            && |r| <= |s| && r == s[|s| - |r|..]
            && (forall i :: 0 <= i < |s| - |r| ==> s[i] == Separator)
            && (|r| == 0 || r[0] != Separator)
    decreases |s|
  {
    if |s| > 0 && s[0] == Separator {
      StripSpec(s[1..]);
    }
  }

  /** The key under which an identifier is stored and compared. */
  function Normalize(s: string): string {
    Lower(StripSeparators(s))
  }

  /** A canonical identifier is its own normal form. */
  predicate Canonical(s: string) {
    && (forall i :: 0 <= i < |s| ==> !IsUpper(s[i]))
    && (|s| == 0 || s[0] != Separator)
  }

  lemma LowerOfCanonical(s: string)
    requires forall i :: 0 <= i < |s| ==> !IsUpper(s[i])
    ensures Lower(s) == s
  {
    LowerSpec(s);
  }

  /** The normal form is canonical, and canonical identifiers are unchanged. */
  lemma NormalizeCanonical(s: string)
    ensures Canonical(Normalize(s))
    ensures Canonical(s) ==> Normalize(s) == s
  {
    var t := StripSeparators(s);
    var n := Lower(t);
    StripSpec(s);
    LowerSpec(t);
    assert forall i :: 0 <= i < |n| ==> !IsUpper(n[i]);
    if Canonical(s) {
      assert t == s;
      LowerOfCanonical(s);
    }
  }

  /** Normalising twice is normalising once. */
  lemma NormalizeIdempotent(s: string)
    ensures Normalize(Normalize(s)) == Normalize(s)
  {
    NormalizeCanonical(s);
    NormalizeCanonical(Normalize(s));
  }

  lemma {:induction false} LowerKeepsLeadingSeparators(s: string)
    ensures StripSeparators(Lower(s)) == Lower(StripSeparators(s))
    decreases |s|
  {
    if |s| > 0 && s[0] == Separator {
      assert Lower(s) == [Separator] + Lower(s[1..]);
      assert Lower(s)[1..] == Lower(s[1..]);
      LowerKeepsLeadingSeparators(s[1..]);
    }
  }

  /** Identifiers that agree up to ASCII case normalise to the same key. */
  lemma NormalizeIgnoresCase(s: string, t: string)
    requires Lower(s) == Lower(t)
    ensures Normalize(s) == Normalize(t)
  {
    LowerKeepsLeadingSeparators(s);
    LowerKeepsLeadingSeparators(t);
    assert Normalize(s) == Lower(StripSeparators(Lower(s))) by {
      assert StripSeparators(Lower(s)) == Lower(StripSeparators(s));
      LowerIdempotent(StripSeparators(s));
    }
    assert Normalize(t) == Lower(StripSeparators(Lower(t))) by {
      assert StripSeparators(Lower(t)) == Lower(StripSeparators(t));
      LowerIdempotent(StripSeparators(t));
    }
  }

  lemma LowerIdempotent(s: string)
    ensures Lower(Lower(s)) == Lower(s)
  {
    LowerSpec(s);
    LowerOfCanonical(Lower(s));
  }

  /** A leading namespace separator never changes an identifier. */
  lemma NormalizeIgnoresLeadingSeparator(s: string)
    ensures Normalize([Separator] + s) == Normalize(s)
  {
    assert ([Separator] + s)[1..] == s;
  }
}
