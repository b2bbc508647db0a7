/** The string helpers of utils/index.ts. */
module Utils {
  import opened Numbers
  import opened SeqUtil
  import opened Types

  predicate IsLowerAscii(c: char) {
    'a' <= c <= 'z'
  }

  /** `toUpperCase` on one character, for the ASCII range. */
  function ToUpper(c: char): char {
    if IsLowerAscii(c) then (c as int - 32) as char else c
  }

  /** `capitalize`: `s.charAt(0).toUpperCase() + s.slice(1)`. */
  function Capitalize(s: string): string {
    if |s| == 0 then "" else [ToUpper(s[0])] + s[1..]
  }

  /**
   * `capitalize` keeps the length and everything after the first character,
   * leaves no lower-case letter in front, changes the first character only
   * when it was a lower-case letter, and maps "" to "".
   */
  lemma CapitalizeSpec(s: string)
    ensures |Capitalize(s)| == |s|
    ensures |s| == 0 ==> Capitalize(s) == ""
    ensures |s| > 0 ==> Capitalize(s)[1..] == s[1..] && !IsLowerAscii(Capitalize(s)[0])
    ensures |s| > 0 && !IsLowerAscii(s[0]) ==> Capitalize(s) == s
    ensures |s| > 0 && IsLowerAscii(s[0]) ==> Capitalize(s)[0] as int == s[0] as int - 32
  {
  }

  /** Capitalizing a second time changes nothing. */
  lemma CapitalizeIdempotent(s: string)
    ensures Capitalize(Capitalize(s)) == Capitalize(s)
  {
    if |s| > 0 {
      var c := Capitalize(s);
      assert c[1..] == s[1..];
    }
  }

  /** `s.replace(from, to)` with a one-character string pattern: only the first occurrence is replaced. */
  function ReplaceFirst(s: string, from: char, to: char): (r: string)
    ensures |r| == |s|
    ensures from !in s ==> r == s
    ensures from in s ==> r[IndexOf(s, from)] == to
    ensures forall k :: 0 <= k < |s| && k != IndexOf(s, from) ==> r[k] == s[k]
  {
    var i := IndexOf(s, from);
    if i < 0 then s else s[..i] + [to] + s[i + 1..]
  }

  /**
   * `s.split(sep, 2)` for a one-character separator: the text before the first
   * separator and, when there is one, the text up to the next separator.
   */
  function SplitFirstTwo(s: string, sep: char): (parts: seq<string>)
    ensures 1 <= |parts| <= 2
  {
    var i := IndexOf(s, sep);
    if i < 0 then [s]
    else
      var rest := s[i + 1..];
      var j := IndexOf(rest, sep);
      [s[..i], if j < 0 then rest else rest[..j]]
  }

  /**
   * The parts hold no separator; there is one part exactly when `s` has no
   * separator, and otherwise the two parts joined by it begin `s`, ending at the
   * end of `s` or at its second separator.
   */
  lemma SplitFirstTwoSpec(s: string, sep: char)
    ensures var parts := SplitFirstTwo(s, sep);
      && (forall k :: 0 <= k < |parts| ==> sep !in parts[k])
      && (|parts| == 1 <==> sep !in s)
      && (|parts| == 1 ==> parts[0] == s)
      && (|parts| == 2 ==>
            var n := |parts[0]| + 1 + |parts[1]|;
            && n <= |s|
            && s[..n] == parts[0] + [sep] + parts[1]
            && (n == |s| || s[n] == sep))
  {
    var i := IndexOf(s, sep);
    if i >= 0 {
      var rest := s[i + 1..];
      var j := IndexOf(rest, sep);
      var second := if j < 0 then rest else rest[..j];
      assert SplitFirstTwo(s, sep) == [s[..i], second];
      SeparatedPrefix(s, sep, i, second);
    }
  }

  /** The text before a separator, the separator and a prefix of what follows begin `s`. */
  lemma SeparatedPrefix(s: string, sep: char, i: nat, second: string)
    requires i < |s| && s[i] == sep
    requires |second| <= |s| - i - 1 && second == s[i + 1..][..|second|]
    ensures s[..i + 1 + |second|] == s[..i] + [sep] + second
  {
    var n := i + 1 + |second|;
    forall k | 0 <= k < n
      ensures s[..n][k] == (s[..i] + [sep] + second)[k]
    {
      if k > i {
        assert second[k - i - 1] == s[k];
      }
    }
  }

  /** `timezoneToParts`: replace the first "_" with a space, then keep at most two "/"-separated parts. */
  function TimezoneToParts(timezone: string): seq<string> {
    SplitFirstTwo(ReplaceFirst(timezone, '_', ' '), '/')
  }

  /**
   * A zone name yields one part exactly when it has no "/", two otherwise; the
   * parts hold no "/" and, joined by "/", they begin the name with its first "_"
   * made a space, up to its end or its second "/", so any third segment is dropped.
   */
  lemma TimezoneToPartsSpec(timezone: string)
    ensures var parts := TimezoneToParts(timezone);
      && 1 <= |parts| <= 2
      && (|parts| == 1 <==> '/' !in timezone)
      && (forall k :: 0 <= k < |parts| ==> '/' !in parts[k])
      && var spaced := ReplaceFirst(timezone, '_', ' ');
         if |parts| == 1 then parts[0] == spaced
         else
           var n := |parts[0]| + 1 + |parts[1]|;
           && n <= |spaced|
           && spaced[..n] == parts[0] + "/" + parts[1]
           && (n == |spaced| || spaced[n] == '/')
  {
    var spaced := ReplaceFirst(timezone, '_', ' ');
    SplitFirstTwoSpec(spaced, '/');
    assert '/' in timezone <==> '/' in spaced by {
      if '/' in timezone {
        var k := IndexOf(timezone, '/');
        assert spaced[k] == '/';
      }
      if '/' in spaced {
        var k := IndexOf(spaced, '/');
        assert timezone[k] == '/';
      }
    }
  }

  /** A name with no "/" is a single part. */
  lemma TimezoneToPartsSingle()
    ensures TimezoneToParts("UTC") == ["UTC"]
  {
  }

  /** A valid `Time`'s two halves, as `time.split(":").map(Number)` reads them. */
  function ParseTime(time: string): (hm: (nat, nat))
    requires IsTime(time)
    ensures hm.0 <= 23 && hm.1 <= 59
    ensures TimeText(hm.0, hm.1) == time
  {
    var h, m := time[..2], time[3..];
    TwoDigitValue(h);
    TwoDigitValue(m);
    TwoDigitText(h);
    TwoDigitText(m);
    (DecimalValue(h), DecimalValue(m))
  }

  /** Every hour 0..23 and minute 0..59 has exactly one `Time`, which parses back to them. */
  lemma {:induction false} TimeTextRoundTrip(hours: nat, minutes: nat)
    requires hours <= 23 && minutes <= 59
    ensures IsTime(TimeText(hours, minutes))
    ensures ParseTime(TimeText(hours, minutes)) == (hours, minutes)
  {
    var t := TimeText(hours, minutes);
    TwoDigitValue(t[..2]);
    TwoDigitValue(t[3..]);
  }

  /** `Number` of a two-digit text. */
  lemma TwoDigitValue(s: string)
    requires |s| == 2 && AllDigits(s)
    ensures DecimalValue(s) == DigitValue(s[0]) * 10 + DigitValue(s[1])
  {
    var p := s[..1];
    assert p[..|p| - 1] == [] && p[|p| - 1] == s[0];
    assert DecimalValue(p) == DigitValue(s[0]);
    assert s[..|s| - 1] == p;
  }

  /** A two-digit text is printed back by its tens digit and its units digit. */
  lemma TwoDigitText(s: string)
    requires |s| == 2 && AllDigits(s)
    ensures DecimalValue(s) < 100
    ensures DigitChar(DecimalValue(s) / 10) == s[0] && DigitChar(DecimalValue(s) % 10) == s[1]
  {
    TwoDigitValue(s);
    var a, b := DigitValue(s[0]), DigitValue(s[1]);
    assert DecimalValue(s) / 10 == a && DecimalValue(s) % 10 == b;
    DigitRoundTrip(s[0]);
    DigitRoundTrip(s[1]);
  }

  lemma DigitRoundTrip(c: char)
    requires IsDigit(c)
    ensures DigitChar(DigitValue(c)) == c
  {
  }
}
