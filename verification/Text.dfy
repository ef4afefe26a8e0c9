/** `str.strip()` and the two identifier formats the modelled code checks. */
module Text {

  /** The characters Python's `str.strip` removes. */
  predicate IsSpace(c: char) {
    var n := c as int;
    9 <= n <= 13 || 28 <= n <= 32 || n == 0x85 || n == 0xA0 || n == 0x1680 || 0x2000 <= n <= 0x200A
    || n == 0x2028 || n == 0x2029 || n == 0x202F || n == 0x205F || n == 0x3000
  }

  /** Tab, line feed to carriage return, the separators, blank, and Unicode's spaces. */
  lemma SpaceMeaning(c: char)
    ensures IsSpace(c) <==> c as int in {
      0x09, 0x0A, 0x0B, 0x0C, 0x0D, 0x1C, 0x1D, 0x1E, 0x1F, 0x20, 0x85, 0xA0, 0x1680,
      0x2000, 0x2001, 0x2002, 0x2003, 0x2004, 0x2005, 0x2006, 0x2007, 0x2008, 0x2009, 0x200A,
      0x2028, 0x2029, 0x202F, 0x205F, 0x3000}
  {
  }

  predicate IsStripped(s: string) {
    |s| == 0 || (!IsSpace(s[0]) && !IsSpace(s[|s| - 1]))
  }

  function Strip(s: string): string
    decreases |s|
  {
    if |s| == 0 then s
    else if IsSpace(s[0]) then Strip(s[1..])
    else if IsSpace(s[|s| - 1]) then Strip(s[..|s| - 1])
    else s
  }

  /** Stripping leaves no space at either end, and leaves such strings alone. */
  lemma {:induction false} StripStripped(s: string)
    ensures IsStripped(Strip(s))
    ensures IsStripped(s) ==> Strip(s) == s
    ensures Strip(Strip(s)) == Strip(s)
    decreases |s|
  {
    if |s| == 0 {
    } else if IsSpace(s[0]) {
      StripStripped(s[1..]);
    } else if IsSpace(s[|s| - 1]) {
      StripStripped(s[..|s| - 1]);
    }
  }

  /** Stripping removes spaces at the ends and nothing else. */
  lemma {:induction false} StripMeaning(s: string) returns (i: nat, j: nat)
    ensures i <= j <= |s| && Strip(s) == s[i..j] && IsStripped(Strip(s))
    ensures forall k :: 0 <= k < i || j <= k < |s| ==> IsSpace(s[k])
    decreases |s|
  {
    hide IsSpace;
    i, j := 0, |s|;
    if |s| == 0 {
    } else if IsSpace(s[0]) {
      i, j := StripMeaning(s[1..]);
      assert s[1..][i..j] == s[i + 1..j + 1];
      forall k | 0 <= k < i + 1 || j + 1 <= k < |s| ensures IsSpace(s[k]) {
        if k != 0 { assert s[k] == s[1..][k - 1]; }
      }
      i, j := i + 1, j + 1;
    } else if IsSpace(s[|s| - 1]) {
      i, j := StripMeaning(s[..|s| - 1]);
      forall k | 0 <= k < i || j <= k < |s| ensures IsSpace(s[k]) {
        if k != |s| - 1 { assert s[k] == s[..|s| - 1][k]; }
      }
    }
  }

  predicate IsHexDigit(c: char) {
    '0' <= c <= '9' || 'a' <= c <= 'f'
  }

  const SHA_PREFIX := "sha256:"

  /** `^sha256:[0-9a-f]{64}$`. */
  predicate IsSha256(s: string) {
    |s| == 71 && s[..7] == SHA_PREFIX && forall i :: 7 <= i < 71 ==> IsHexDigit(s[i])
  }

  /** The prefix and 64 characters of the hexadecimal alphabet. */
  lemma Sha256Meaning(s: string)
    ensures IsSha256(s) <==> exists t :: |t| == 64 && s == "sha256:" + t && forall i :: 0 <= i < 64 ==> t[i] in "0123456789abcdef"
  {
    if IsSha256(s) {
      var t := s[7..];
      assert s == "sha256:" + t;
      forall i | 0 <= i < 64 ensures t[i] in "0123456789abcdef" {
        HexDigitMeaning(s[i + 7]);
      }
    }
    if t :| |t| == 64 && s == "sha256:" + t && forall i :: 0 <= i < 64 ==> t[i] in "0123456789abcdef" {
      forall i | 7 <= i < 71 ensures IsHexDigit(s[i]) {
        assert s[i] == t[i - 7];
        HexDigitMeaning(s[i]);
      }
    }
  }

  lemma HexDigitMeaning(c: char)
    ensures IsHexDigit(c) <==> c in "0123456789abcdef"
  {
    var digits := "0123456789abcdef";
    if '0' <= c <= '9' {
      assert digits[c as int - 48] == c;
    } else if 'a' <= c <= 'f' {
      assert digits[c as int - 87] == c;
    }
  }

  lemma Sha256IsStripped(s: string)
    requires IsSha256(s)
    ensures IsStripped(s) && Strip(s) == s
  {
    assert s[0] == s[..7][0] == 's';
    assert IsHexDigit(s[70]);
    StripStripped(s);
  }
}
