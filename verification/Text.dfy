/** Character classes and trimming as JavaScript defines them for `trim`, `\s` and ASCII lower-casing. */
module Text {
  /** White space and line terminators: what `trim` removes and `\s` matches. */
  predicate IsSpace(c: char) {
    var n := c as int;
    || 9 <= n <= 13 || n == 0x20 || n == 0xA0 || n == 0x1680 || 0x2000 <= n <= 0x200A
    || n == 0x2028 || n == 0x2029 || n == 0x202F || n == 0x205F || n == 0x3000 || n == 0xFEFF
  }

  function TrimStart(s: string): (r: string)
    ensures |r| <= |s| && r == s[|s| - |r|..]
    ensures r == [] || !IsSpace(r[0])
    ensures forall k :: 0 <= k < |s| - |r| ==> IsSpace(s[k])
  {
    if s != [] && IsSpace(s[0]) then TrimStart(s[1..]) else s
  }

  function TrimEnd(s: string): (r: string)
    ensures |r| <= |s| && r == s[..|r|]
    ensures r == [] || !IsSpace(r[|r| - 1])
    ensures forall k :: |r| <= k < |s| ==> IsSpace(s[k])
  {
    if s != [] && IsSpace(s[|s| - 1]) then TrimEnd(s[..|s| - 1]) else s
  }

  function Trim(s: string): string { TrimEnd(TrimStart(s)) }

  /** A trimmed string keeps exactly the stretch between the first and the last non-space character. */
  lemma TrimWindow(s: string) returns (a: nat)
    ensures a + |Trim(s)| <= |s| && Trim(s) == s[a..a + |Trim(s)|]
    ensures forall k :: 0 <= k < |s| && !IsSpace(s[k]) ==> a <= k < a + |Trim(s)|
    ensures Trim(s) != [] ==> !IsSpace(Trim(s)[0]) && !IsSpace(Trim(s)[|Trim(s)| - 1])
  {
    var t := TrimStart(s);
    a := |s| - |t|;
    forall k | 0 <= k < |s| && !IsSpace(s[k])
      ensures a <= k < a + |Trim(s)|
    {
      if k >= a {
        assert t[k - a] == s[k];
      }
    }
  }

  lemma TrimFixed(s: string)
    requires s == [] || (!IsSpace(s[0]) && !IsSpace(s[|s| - 1]))
    ensures Trim(s) == s
  {
  }

  lemma TrimIdempotent(s: string)
    ensures Trim(Trim(s)) == Trim(s)
  {
    var a := TrimWindow(s);
    TrimFixed(Trim(s));
  }

  function LowerChar(c: char): char {
    if 'A' <= c <= 'Z' then (c as int + 32) as char else c
  }

  function Lower(s: string): string {
    seq(|s|, i requires 0 <= i < |s| => LowerChar(s[i]))
  }

  const CAPITALS := "ABCDEFGHIJKLMNOPQRSTUVWXYZ"
  const SMALL := "abcdefghijklmnopqrstuvwxyz"

  /** Lower-casing turns each of the 26 capitals into its small letter and leaves every other character. */
  lemma LowerIs(s: string)
    ensures |Lower(s)| == |s|
    ensures forall i, k :: 0 <= i < |s| && 0 <= k < 26 && s[i] == CAPITALS[k] ==> Lower(s)[i] == SMALL[k]
    ensures forall i :: 0 <= i < |s| && s[i] !in CAPITALS ==> Lower(s)[i] == s[i]
  {
    Alphabet();
    forall i | 0 <= i < |s| && s[i] !in CAPITALS ensures LowerChar(s[i]) == s[i] {
      if 'A' <= s[i] <= 'Z' { IsCapital(s[i]); }
    }
  }

  lemma IsCapital(c: char)
    requires 'A' <= c <= 'Z'
    ensures c in CAPITALS
  {
    Alphabet();
    assert CAPITALS[c as int - 65] == c;
  }

  lemma Alphabet()
    ensures |CAPITALS| == |SMALL| == 26
    ensures forall k :: 0 <= k < 26 ==> CAPITALS[k] as int == 65 + k && SMALL[k] as int == 97 + k
  {
  }

  predicate IsDigit(c: char) { '0' <= c <= '9' }

  /** Keeps the digits of a phone number. */
  function Digits(s: string): (r: string)
    ensures forall c :: c in r ==> IsDigit(c)
  {
    if s == [] then [] else (if IsDigit(s[0]) then [s[0]] else []) + Digits(s[1..])
  }

  /** Cleaning works character by character and keeps exactly the ten digits. */
  lemma DigitsIs(c: char, s: string, t: string)
    ensures Digits([c]) == if c in "0123456789" then [c] else []
    ensures Digits(s + t) == Digits(s) + Digits(t)
  {
    assert [c][1..] == [];
    assert c in "0123456789" <==> IsDigit(c);
    DigitsConcat(s, t);
  }

  lemma {:induction false} DigitsConcat(s: string, t: string)
    ensures Digits(s + t) == Digits(s) + Digits(t)
  {
    if s == [] {
      assert s + t == t;
    } else {
      assert (s + t)[1..] == s[1..] + t;
      DigitsConcat(s[1..], t);
    }
  }
}
