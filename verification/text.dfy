/** The few `java.lang.String` operations the core relies on, over `seq<char>`:
    `contains`, `startsWith`, `Collectors.joining` and the `%d` conversion of
    `String.format` for non-negative values. */
module Text {

  /** `needle` occurs in `hay` starting at index `i`. */
  ghost predicate OccursAt(needle: string, hay: string, i: int) {
    0 <= i && i + |needle| <= |hay| && hay[i..i + |needle|] == needle
  }

  /** The reference meaning of `hay.contains(needle)`: some occurrence exists. */
  ghost predicate IsSubstring(needle: string, hay: string) {
    exists i :: OccursAt(needle, hay, i)
  }

  /** `hay.contains(needle)`, computed by trying each start position in turn. */
  function Contains(hay: string, needle: string): bool
    decreases |hay|
  {
    if |needle| > |hay| then false
    else if hay[..|needle|] == needle then true
    else |hay| > 0 && Contains(hay[1..], needle)
  }

  /** The computed test agrees with the reference meaning, in both directions. */
  lemma {:induction false} ContainsIsSubstring(hay: string, needle: string)
    ensures Contains(hay, needle) <==> IsSubstring(needle, hay)
    decreases |hay|
  {
    if |needle| > |hay| {
    } else if hay[..|needle|] == needle {
      assert OccursAt(needle, hay, 0);
    } else if |hay| > 0 {
      ContainsIsSubstring(hay[1..], needle);
      if IsSubstring(needle, hay) {
        var i :| OccursAt(needle, hay, i);
        assert i != 0;
        assert hay[1..][i - 1..i - 1 + |needle|] == hay[i..i + |needle|];
        assert OccursAt(needle, hay[1..], i - 1);
      }
      if IsSubstring(needle, hay[1..]) {
        var i :| OccursAt(needle, hay[1..], i);
        assert hay[1..][i..i + |needle|] == hay[i + 1..i + 1 + |needle|];
        assert OccursAt(needle, hay, i + 1);
      }
    }
  }

  /** Whether any string of `needles` occurs in `hay`; Java iterates over a
      `Set<String>` and stops at the first hit, so iteration order is irrelevant. */
  function ContainsAny(hay: string, needles: set<string>): (b: bool)
    ensures b <==> exists s :: s in needles && IsSubstring(s, hay)
  {
    ContainsAnyIsSubstring(hay, needles);
    exists s | s in needles :: Contains(hay, s)
  }

  lemma ContainsAnyIsSubstring(hay: string, needles: set<string>)
    ensures forall s :: s in needles ==> (Contains(hay, s) <==> IsSubstring(s, hay))
  {
    forall s | s in needles
      ensures Contains(hay, s) <==> IsSubstring(s, hay)
    {
      ContainsIsSubstring(hay, s);
    }
  }

  /** The empty string occurs in every string, so `hay.contains("")` always holds. */
  lemma EmptyOccursEverywhere(hay: string)
    ensures IsSubstring("", hay)
  {
    assert OccursAt("", hay, 0);
  }

  /** `s.startsWith(prefix)`: an occurrence at index 0. */
  predicate StartsWith(s: string, prefix: string): (b: bool)
    ensures b <==> OccursAt(prefix, s, 0)
    ensures b ==> IsSubstring(prefix, s)
  {
    |prefix| <= |s| && s[..|prefix|] == prefix
  }

  /** `parts.stream().collect(Collectors.joining(sep))`. */
  function Join(parts: seq<string>, sep: string): (r: string)
    ensures |parts| == 0 ==> r == ""
    ensures |parts| == 1 ==> r == parts[0]
    ensures |parts| > 0 ==> StartsWith(r, parts[0])
    ensures |parts| > 1 ==> StartsWith(r, parts[0] + sep)
  {
    if |parts| == 0 then ""
    else if |parts| == 1 then parts[0]
    else parts[0] + sep + Join(parts[1..], sep)
  }

  /** Joining one more part appends the separator and that part. */
  lemma {:induction false} JoinSnoc(parts: seq<string>, x: string, sep: string)
    requires |parts| > 0
    ensures Join(parts + [x], sep) == Join(parts, sep) + sep + x
    decreases |parts|
  {
    var ps := parts + [x];
    assert ps[1..] == parts[1..] + [x];
    if |parts| > 1 {
      JoinSnoc(parts[1..], x, sep);
    }
  }

  /** `head` followed by two lines separated by a newline: both lines occur in
      the text, and the text starts with `head`. */
  lemma Framed(head: string, first: string, second: string)
    ensures var text := head + first + "\n" + second;
            && OccursAt(first, text, |head|)
            && OccursAt(second, text, |head| + |first| + 1)
            && StartsWith(text, head)
  {
    var text := head + first + "\n" + second;
    assert text[|head|..|head| + |first|] == first;
    assert text[|head| + |first| + 1..|head| + |first| + 1 + |second|] == second;
    assert text[..|head|] == head;
  }

  /** An occurrence inside a suffix is an occurrence in the whole string. */
  lemma OccursAfter(needle: string, front: string, back: string, i: int)
    requires OccursAt(needle, back, i)
    ensures OccursAt(needle, front + back, |front| + i)
  {
    assert (front + back)[|front| + i..|front| + i + |needle|] == back[i..i + |needle|];
  }

  /** Every part occurs in the joined text, whatever the separator. */
  lemma {:induction false} JoinContainsParts(parts: seq<string>, sep: string, i: nat)
    requires i < |parts|
    ensures IsSubstring(parts[i], Join(parts, sep))
    decreases |parts|
  {
    var r := Join(parts, sep);
    if i == 0 {
      assert OccursAt(parts[0], r, 0);
    } else {
      JoinContainsParts(parts[1..], sep, i - 1);
      var j :| OccursAt(parts[i], Join(parts[1..], sep), j);
      OccursAfter(parts[i], parts[0] + sep, Join(parts[1..], sep), j);
    }
  }

  /** The decimal digit for `d`. */
  function DigitChar(d: nat): (c: char)
    requires d < 10
    ensures '0' <= c <= '9'
  {
    "0123456789"[d]
  }

  /** The value of a decimal digit character. */
  function DigitValue(c: char): (d: nat)
    requires '0' <= c <= '9'
    ensures d < 10
  {
    (c - '0') as nat
  }

  /** `String.format("%d", n)` for `n >= 0`: decimal digits, most significant first. */
  function NatToString(n: nat): (s: string)
    ensures |s| >= 1
    ensures forall k :: 0 <= k < |s| ==> '0' <= s[k] <= '9'
    ensures |s| > 1 ==> s[0] != '0'
  {
    if n < 10 then [DigitChar(n)]
    else
      var high := NatToString(n / 10);
      assert |high| == 1 ==> high[0] != '0' by {
        if |high| == 1 {
          assert n / 10 < 10 && n / 10 >= 1;
          assert high == [DigitChar(n / 10)];
        }
      }
      high + [DigitChar(n % 10)]
  }

  /** Reads a string of decimal digits back as a number. */
  function ParseDigits(s: string): nat
    requires forall k :: 0 <= k < |s| ==> '0' <= s[k] <= '9'
  {
    if |s| == 0 then 0 else 10 * ParseDigits(s[..|s| - 1]) + DigitValue(s[|s| - 1])
  }

  /** Reading the digits written by `NatToString` gives back the number. */
  lemma {:induction false} ParseNatToString(n: nat)
    ensures ParseDigits(NatToString(n)) == n
  {
    if n < 10 {
      assert DigitValue(DigitChar(n)) == n;
    } else {
      var s := NatToString(n);
      assert s[..|s| - 1] == NatToString(n / 10);
      assert DigitValue(DigitChar(n % 10)) == n % 10;
      ParseNatToString(n / 10);
    }
  }

  /** Different numbers are written differently. */
  lemma NatToStringInjective(m: nat, n: nat)
    requires NatToString(m) == NatToString(n)
    ensures m == n
  {
    ParseNatToString(m);
    ParseNatToString(n);
  }
}
