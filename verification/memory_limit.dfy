/**
 * The plugin's reading of PHP's `memory_limit` setting in megabytes.
 * The string is tested for an upper-case `M` first, then for an upper-case
 * `G`; anything else is taken as a byte count.
 */
module MemoryLimit {
  import opened PhpString

  const BytesPerMB: real := 1024.0 * 1024.0

  /** getMemoryLimitInMB: the memory limit string converted to megabytes. */
  function GetMemoryLimitInMB(memoryLimit: string): real {
    if 'M' in memoryLimit then
      ToFloat(RemoveChar(memoryLimit, 'M'))
    else if 'G' in memoryLimit then
      ToFloat(RemoveChar(memoryLimit, 'G')) * 1024.0
    else
      ToFloat(memoryLimit) / 1024.0 / 1024.0
  }

  /** "<n>M" is n megabytes. */
  lemma MegabyteSuffix(n: nat)
    ensures GetMemoryLimitInMB(Render(n) + "M") == n as real
  {
    var d := Render(n);
    assert (d + "M")[|d|] == 'M';
    RemoveCharAppend(d, "M", 'M');
    RemoveCharAbsent(d, 'M');
    assert RemoveChar("M", 'M') == [] by {
      assert "M"[..0] == [];
    }
    assert d + [] == d;
    ToFloatOfRender(n, []);
  }

  /** The M test comes first: "<n>GM" and "<n>MG" are both n megabytes, the G is not applied. */
  lemma MegabyteTakesPrecedence(n: nat)
    ensures GetMemoryLimitInMB(Render(n) + "GM") == n as real
    ensures GetMemoryLimitInMB(Render(n) + "MG") == n as real
  {
    MegabyteWithLetters(n, "GM");
    MegabyteWithLetters(n, "MG");
  }

  /** A tail made of one G and some Ms after the digits leaves the digits read as megabytes. */
  lemma MegabyteWithLetters(n: nat, tail: string)
    requires tail == "GM" || tail == "MG"
    ensures GetMemoryLimitInMB(Render(n) + tail) == n as real
  {
    var d := Render(n);
    assert 'M' in d + tail by {
      assert tail[0] == 'M' || tail[1] == 'M';
      assert (d + tail)[|d|] == tail[0] && (d + tail)[|d| + 1] == tail[1];
    }
    assert RemoveChar(d + tail, 'M') == d + "G" by {
      assert RemoveChar(tail, 'M') == "G" by {
        assert tail[..1] == [tail[0]];
        assert "G"[..0] == [];
        assert "M"[..0] == [];
      }
      KeepPrefix(d, tail, 'M');
    }
    ToFloatOfRender(n, "G");
  }

  /** Every M is deleted wherever it stands: an M between digits joins them ("5M12M" is 512 megabytes). */
  lemma MegabyteLettersJoinDigits(a: nat, b: string)
    requires |b| > 0 && AllDigits(b)
    ensures GetMemoryLimitInMB(Render(a) + "M" + b + "M") == DigitsValue(Render(a) + b) as real
  {
    var d := Render(a);
    assert 'M' !in d && 'M' !in b by {
      assert forall i :: 0 <= i < |b| ==> b[i] != 'M';
      assert forall i :: 0 <= i < |d| ==> d[i] != 'M';
    }
    assert (d + "M" + b + "M")[|d|] == 'M';
    DeleteSeparators(d, b, 'M');
    assert ToFloat(d + b) == DigitsValue(d + b) as real by {
      assert AllDigits(d + b);
      ScanDigits(d + b, []);
      assert d + b + [] == d + b;
      IntegerMagnitude(d + b);
    }
  }

  /** "<n>G" (with no M) is n gigabytes, that is n * 1024 megabytes. */
  lemma GigabyteSuffix(n: nat)
    ensures GetMemoryLimitInMB(Render(n) + "G") == n as real * 1024.0
  {
    var d := Render(n);
    assert 'M' !in d + "G";
    assert (d + "G")[|d|] == 'G';
    RemoveCharAppend(d, "G", 'G');
    RemoveCharAbsent(d, 'G');
    assert RemoveChar("G", 'G') == [] by {
      assert "G"[..0] == [];
    }
    assert d + [] == d;
    ToFloatOfRender(n, []);
  }

  /** A bare integer is a byte count: n bytes are n / 1024^2 megabytes. */
  lemma ByteCount(n: nat)
    ensures GetMemoryLimitInMB(Render(n)) == n as real / BytesPerMB
  {
    var d := Render(n);
    assert 'M' !in d && 'G' !in d;
    assert d + [] == d;
    ToFloatOfRender(n, []);
  }

  /**
   * Both letter tests are case-sensitive: a lower-case or any other non-numeric suffix
   * ("512m", "512g", "512K") leaves the number to be read as a byte count.
   */
  lemma OtherSuffixIsByteCount(n: nat, c: char)
    requires c != 'M' && c != 'G' && !ContinuesNumeral(c)
    ensures GetMemoryLimitInMB(Render(n) + [c]) == n as real / BytesPerMB
  {
    var d := Render(n);
    assert 'M' !in d + [c] && 'G' !in d + [c];
    ToFloatOfRender(n, [c]);
  }

  /** With neither letter and no leading numeral ("abc", ""), the cast yields 0 megabytes. */
  lemma NonNumericIsZero(s: string)
    requires 'M' !in s && 'G' !in s
    requires s == [] || !(IsWhitespace(s[0]) || IsDigit(s[0]) || s[0] in "+-.")
    ensures GetMemoryLimitInMB(s) == 0.0
  {
    ToFloatOfNonNumeric(s);
  }

  /** A negative integer with no suffix is a negative byte count. */
  lemma NegativeByteCount(n: nat)
    ensures GetMemoryLimitInMB(['-'] + Render(n)) == -(n as real) / BytesPerMB
  {
    var d := Render(n);
    var s := ['-'] + d;
    assert 'M' !in s && 'G' !in s by {
      assert forall i :: 0 <= i < |s| ==> s[i] == '-' || IsDigit(s[i]);
    }
    assert ToFloat(s) == -(n as real) by {
      ToFloatOfNegation(d);
      assert d + [] == d;
      ToFloatOfRender(n, []);
    }
  }

  /** "512M" is 512 megabytes. */
  lemma ExampleMegabytes()
    ensures GetMemoryLimitInMB("512M") == 512.0
  {
    assert Render(512) + "M" == "512M" by {
      assert Render(5) == "5";
      assert Render(51) == "51";
    }
    MegabyteSuffix(512);
  }

  /** "1G" is 1024 megabytes. */
  lemma ExampleGigabytes()
    ensures GetMemoryLimitInMB("1G") == 1024.0
  {
    assert Render(1) + "G" == "1G";
    GigabyteSuffix(1);
  }

  /** "1073741824" bytes are 1024 megabytes. */
  lemma ExampleBytes()
    ensures GetMemoryLimitInMB("1073741824") == 1024.0
  {
    GigabyteInBytesRendered();
    ByteCount(1073741824);
  }

  /** The decimal numeral of 2^30, one digit at a time. */
  lemma GigabyteInBytesRendered()
    ensures Render(1073741824) == "1073741824"
  {
    RenderDigit(1, 0);
    RenderDigit(10, 7);
    RenderDigit(107, 3);
    RenderDigit(1073, 7);
    RenderDigit(10737, 4);
    RenderDigit(107374, 1);
    RenderDigit(1073741, 8);
    RenderDigit(10737418, 2);
    RenderDigit(107374182, 4);
  }

  /** Appending one decimal digit to a positive number appends its character to the numeral. */
  lemma RenderDigit(n: nat, d: nat)
    requires 0 < n && d < 10
    ensures Render(10 * n + d) == Render(n) + [DigitChar(d)]
  {
    assert (10 * n + d) / 10 == n && (10 * n + d) % 10 == d;
  }

  /** "512m" is not 512 megabytes but 512 bytes. */
  lemma ExampleLowercase()
    ensures GetMemoryLimitInMB("512m") == 512.0 / BytesPerMB
  {
    assert Render(512) + "m" == "512m" by {
      assert Render(5) == "5";
      assert Render(51) == "51";
    }
    OtherSuffixIsByteCount(512, 'm');
  }

  /** PHP's "no limit" value "-1" reads as a limit below zero. */
  lemma ExampleUnlimited()
    ensures GetMemoryLimitInMB("-1") < 0.0
  {
    assert ['-'] + Render(1) == "-1";
    NegativeByteCount(1);
  }
}
