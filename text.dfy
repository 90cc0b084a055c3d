/**
 * The string operations of Python and JavaScript that the bot's routing and
 * paging code relies on, written out over `seq<char>`.
 */
module Text {

  /** JavaScript `s.startsWith(p)` (true for the empty prefix). */
  predicate StartsWith(s: string, p: string) {
    |p| <= |s| && s[..|p|] == p
  }

  /** JavaScript `s.split(' ')[0]`: the text before the first space, or all of `s`. */
  function FirstToken(s: string): (t: string)
    ensures ' ' !in t
    ensures StartsWith(s, t)
    ensures t == s || (|t| < |s| && s[|t|] == ' ')
  {
    if s == [] || s[0] == ' ' then [] else [s[0]] + FirstToken(s[1..])
  }

  /**
   * JavaScript `s.split(/\r?\n/).join(' ')`: every line break, "\n" or "\r\n",
   * becomes exactly one space; a lone "\r" is kept.
   */
  function JoinLines(s: string): string {
    if |s| >= 2 && s[0] == '\r' && s[1] == '\n' then " " + JoinLines(s[2..])
    else if s != [] && s[0] == '\n' then " " + JoinLines(s[1..])
    else if s == [] then []
    else [s[0]] + JoinLines(s[1..])
  }

  /** The joined text is a single line. */
  lemma {:induction false} JoinLinesRemovesBreaks(s: string)
    ensures '\n' !in JoinLines(s)
    decreases |s|
  {
    if |s| >= 2 && s[0] == '\r' && s[1] == '\n' {
      JoinLinesRemovesBreaks(s[2..]);
    } else if s != [] {
      JoinLinesRemovesBreaks(s[1..]);
    }
  }

  /** Text that is already a single line is left as it is. */
  lemma {:induction false} JoinLinesSingleLine(s: string)
    requires '\n' !in s
    ensures JoinLines(s) == s
    decreases |s|
  {
    if s != [] {
      assert '\n' !in s[1..] by {
        assert forall i :: 0 <= i < |s[1..]| ==> s[1..][i] == s[i + 1];
      }
      JoinLinesSingleLine(s[1..]);
      assert s == [s[0]] + s[1..];
    }
  }

  predicate EndsWithCR(s: string) {
    s != [] && s[|s| - 1] == '\r'
  }

  /** `c` is one unit `JoinLines` consumes at the front of `c + t`: a line break or a plain character. */
  predicate LeadingUnit(c: string, t: string) {
    c == "\r\n" || c == "\n" || (|c| == 1 && c[0] != '\n' && !(c[0] == '\r' && t != [] && t[0] == '\n'))
  }

  /** How `JoinLines` consumes the first character or line break of `c + t`. */
  lemma JoinLinesStep(c: string, t: string)
    requires LeadingUnit(c, t)
    ensures JoinLines(c + t) == (if c[|c| - 1] == '\n' then " " else c) + JoinLines(t)
  {
    assert (c + t)[|c|..] == t;
  }

  /** The leading unit of a non-empty `a`, and what follows it. */
  lemma SplitLeadingUnit(a: string) returns (c: string, rest: string)
    requires a != []
    ensures a == c + rest && LeadingUnit(c, rest)
    ensures rest != [] ==> rest[|rest| - 1] == a[|a| - 1]
    ensures |rest| < |a|
  {
    c := if |a| >= 2 && a[0] == '\r' && a[1] == '\n' then "\r\n" else a[..1];
    rest := a[|c|..];
  }

  /** Joining two texts joins their lines, unless the first ends in "\r" and the second starts with "\n". */
  lemma {:induction false} JoinLinesConcat(a: string, b: string)
    requires !EndsWithCR(a) || b == [] || b[0] != '\n'
    ensures JoinLines(a + b) == JoinLines(a) + JoinLines(b)
    decreases |a|
  {
    if a == [] {
      assert a + b == b;
    } else {
      var c, a' := SplitLeadingUnit(a);
      var t := a' + b;
      assert a + b == c + t;
      assert LeadingUnit(c, t) by {
        assert a' != [] ==> t[0] == a'[0];
      }
      JoinLinesConcat(a', b);
      JoinLinesStep(c, t);
      JoinLinesStep(c, a');
      Regroup(if c[|c| - 1] == '\n' then " " else c, JoinLines(a'), JoinLines(b));
    }
  }

  lemma Regroup<T>(x: seq<T>, y: seq<T>, z: seq<T>)
    ensures x + (y + z) == (x + y) + z
  {
  }

  /** A "\n" not preceded by "\r" splits the text into two lines joined by one space. */
  lemma JoinLinesAtLF(a: string, b: string)
    requires !EndsWithCR(a)
    ensures JoinLines(a + "\n" + b) == JoinLines(a) + " " + JoinLines(b)
  {
    assert a + "\n" + b == a + ("\n" + b);
    JoinLinesConcat(a, "\n" + b);
    JoinLinesStep("\n", b);
    Regroup(JoinLines(a), " ", JoinLines(b));
  }

  /** A "\r\n" splits the text into two lines joined by one space. */
  lemma JoinLinesAtCRLF(a: string, b: string)
    ensures JoinLines(a + "\r\n" + b) == JoinLines(a) + " " + JoinLines(b)
  {
    assert a + "\r\n" + b == a + ("\r\n" + b);
    JoinLinesConcat(a, "\r\n" + b);
    JoinLinesStep("\r\n", b);
    Regroup(JoinLines(a), " ", JoinLines(b));
  }

  /**
   * Python `s.replace(pat, rep)`: every non-overlapping occurrence of `pat`,
   * scanning left to right, is replaced by `rep`.
   */
  function ReplaceAll(s: string, pat: string, rep: string): (r: string)
    requires pat != []
    ensures pat[0] !in s ==> r == s
    decreases |s|
  {
    if |s| < |pat| then s
    else if s[..|pat|] == pat then rep + ReplaceAll(s[|pat|..], pat, rep)
    else [s[0]] + ReplaceAll(s[1..], pat, rep)
  }

  /** Text before the first character that could start `pat` passes through unchanged. */
  lemma {:induction false} ReplaceAllSkips(a: string, s: string, pat: string, rep: string)
    requires pat != [] && pat[0] !in a
    ensures ReplaceAll(a + s, pat, rep) == a + ReplaceAll(s, pat, rep)
    decreases |a|
  {
    if a != [] {
      var t := a + s;
      assert t[0] == a[0] && t[0] != pat[0];
      assert t[1..] == a[1..] + s;
      ReplaceAllSkips(a[1..], s, pat, rep);
      if |t| < |pat| {
        assert ReplaceAll(s, pat, rep) == s;
      } else {
        assert t[..|pat|] != pat by { assert t[..|pat|][0] == t[0]; }
        assert ReplaceAll(t, pat, rep) == [a[0]] + ReplaceAll(a[1..] + s, pat, rep);
        Regroup([a[0]], a[1..], ReplaceAll(s, pat, rep));
        assert [a[0]] + a[1..] == a;
      }
    } else {
      assert a + s == s;
    }
  }

  /** An occurrence of `pat` after a stretch that cannot start one is replaced by `rep`. */
  lemma {:induction false} ReplaceAllAt(a: string, b: string, pat: string, rep: string)
    requires pat != [] && pat[0] !in a
    ensures ReplaceAll(a + pat + b, pat, rep) == a + rep + ReplaceAll(b, pat, rep)
  {
    ReplaceAllSkips(a, pat + b, pat, rep);
    assert a + pat + b == a + (pat + b);
    var t := pat + b;
    assert t[..|pat|] == pat && t[|pat|..] == b;
  }

  /** No occurrence of `pat` starts in `s` before index `n`. */
  predicate NoMatchBefore(s: string, pat: string, n: nat)
    requires n <= |s|
  {
    forall i | 0 <= i < n :: !StartsWith(s[i..], pat)
  }

  /**
   * The first occurrence of `pat` is replaced by `rep`, and the scan resumes
   * after it: no occurrence of `pat` starts inside `a`.
   */
  lemma {:induction false} ReplaceAllFirst(a: string, b: string, pat: string, rep: string)
    requires pat != []
    requires NoMatchBefore(a + pat + b, pat, |a|)
    ensures ReplaceAll(a + pat + b, pat, rep) == a + rep + ReplaceAll(b, pat, rep)
    decreases |a|
  {
    var t := a + pat + b;
    if a == [] {
      assert t == pat + b;
      ReplaceAllHere(pat, b, rep);
    } else {
      NoMatchShift(a, pat, b);
      ReplaceAllPass(t, pat, rep);
      ReplaceAllFirst(a[1..], b, pat, rep);
      var r := ReplaceAll(b, pat, rep);
      assert ReplaceAll(t, pat, rep) == [a[0]] + ((a[1..] + rep) + r);
      Regroup([a[0]], a[1..] + rep, r);
      Regroup([a[0]], a[1..], rep);
      assert [a[0]] + a[1..] == a;
    }
  }

  /** A stray `<` before a placeholder is kept: `"<<num>".replace("<num>", "7")` is `"<7"`. */
  lemma ReplaceAllAfterStray()
    ensures ReplaceAll("<<num>", "<num>", "7") == "<7"
  {
    var s := "<<num>";
    assert s == "<" + "<num>" + "";
    assert s[0..] == s && s[..5][1] == '<';
    assert NoMatchBefore(s, "<num>", 1);
    ReplaceAllFirst("<", "", "<num>", "7");
    assert "<" + "7" + ReplaceAll("", "<num>", "7") == "<7";
  }

  /** An occurrence at the very start is replaced, and the scan resumes after it. */
  lemma ReplaceAllHere(pat: string, b: string, rep: string)
    requires pat != []
    ensures ReplaceAll(pat + b, pat, rep) == rep + ReplaceAll(b, pat, rep)
  {
    var t := pat + b;
    assert t[..|pat|] == pat && t[|pat|..] == b;
  }

  /** Dropping the first character keeps "no match before the occurrence". */
  lemma NoMatchShift(a: string, pat: string, b: string)
    requires a != [] && NoMatchBefore(a + pat + b, pat, |a|)
    ensures (a + pat + b)[0] == a[0] && (a + pat + b)[1..] == a[1..] + pat + b
    ensures !StartsWith(a + pat + b, pat)
    ensures NoMatchBefore(a[1..] + pat + b, pat, |a| - 1)
  {
    var t := a + pat + b;
    assert t[0..] == t;
    assert t[1..] == a[1..] + pat + b;
    forall i | 0 <= i < |a| - 1
      ensures !StartsWith((a[1..] + pat + b)[i..], pat)
    {
      assert (a[1..] + pat + b)[i..] == t[i + 1..];
    }
  }

  /** Where `pat` does not start, `replace` copies one character and moves on. */
  lemma ReplaceAllPass(t: string, pat: string, rep: string)
    requires pat != [] && t != [] && !StartsWith(t, pat)
    ensures ReplaceAll(t, pat, rep) == [t[0]] + ReplaceAll(t[1..], pat, rep)
  {
    if |t| < |pat| {
      assert [t[0]] + t[1..] == t;
    }
  }

  /** Python `str(n)` for a natural number: its decimal digits, without leading zeros. */
  function NatToString(n: nat): (s: string)
    ensures |s| >= 1
    ensures forall i :: 0 <= i < |s| ==> '0' <= s[i] <= '9'
    ensures n > 0 ==> s[0] != '0'
    decreases n
  {
    if n < 10 then [DigitChar(n)] else NatToString(n / 10) + [DigitChar(n % 10)]
  }

  function DigitChar(d: nat): (c: char)
    requires d < 10
    ensures '0' <= c <= '9'
  {
    ('0' as int + d) as char
  }

  predicate IsDecimal(s: string) {
    forall i :: 0 <= i < |s| ==> '0' <= s[i] <= '9'
  }

  /** The value of a string of decimal digits (the reading of `NatToString`). */
  function ParseNat(s: string): nat
    requires IsDecimal(s)
  {
    if s == [] then 0 else ParseNat(s[..|s| - 1]) * 10 + (s[|s| - 1] as int - '0' as int)
  }

  /** Reading back the digits `str` produces gives the number: no two page numbers print alike. */
  lemma {:induction false} ParseNatToString(n: nat)
    ensures ParseNat(NatToString(n)) == n
    decreases n
  {
    var s := NatToString(n);
    if n < 10 {
      assert s[..|s| - 1] == [];
      assert DigitChar(n) as int - '0' as int == n;
    } else {
      ParseNatToString(n / 10);
      assert s[..|s| - 1] == NatToString(n / 10);
      assert DigitChar(n % 10) as int - '0' as int == n % 10;
    }
  }

  /** `NatToString` is one-to-one. */
  lemma NatToStringInjective(m: nat, n: nat)
    requires NatToString(m) == NatToString(n)
    ensures m == n
  {
    ParseNatToString(m);
    ParseNatToString(n);
  }

  /** Python `for item in items: text += item + "\n"` starting from "". */
  function Lines(items: seq<string>): string {
    if items == [] then "" else Lines(items[..|items| - 1]) + items[|items| - 1] + "\n"
  }

  /** Joining two runs of lines one after the other gives the lines of both. */
  lemma {:induction false} LinesAppend(a: seq<string>, b: seq<string>)
    ensures Lines(a + b) == Lines(a) + Lines(b)
    decreases |b|
  {
    if b != [] {
      var b' := b[..|b| - 1];
      assert (a + b)[..|a + b| - 1] == a + b';
      assert (a + b)[|a + b| - 1] == b[|b| - 1];
      LinesAppend(a, b');
    } else {
      assert a + b == a;
    }
  }

  /** The text is as long as the items plus one newline each. */
  lemma {:induction false} LinesLength(items: seq<string>)
    ensures |Lines(items)| == |items| + SumLengths(items)
    decreases |items|
  {
    if items != [] {
      LinesLength(items[..|items| - 1]);
    }
  }

  function SumLengths(items: seq<string>): nat {
    if items == [] then 0 else SumLengths(items[..|items| - 1]) + |items[|items| - 1]|
  }

  /** The index of the first occurrence of `x` in `s`. */
  function FirstIndex<T(==)>(s: seq<T>, x: T): (i: nat)
    requires x in s
    ensures i < |s| && s[i] == x && x !in s[..i]
  {
    if s[0] == x then 0
    else
      var i := FirstIndex(s[1..], x);
      assert s[..i + 1] == [s[0]] + s[1..][..i];
      i + 1
  }

  /** Python `list.remove(x)`: deletes the first occurrence of `x`; the rest keep their order. */
  function RemoveFirst<T(==)>(s: seq<T>, x: T): (r: seq<T>)
    requires x in s
    ensures |r| == |s| - 1
    ensures r == s[..FirstIndex(s, x)] + s[FirstIndex(s, x) + 1..]
  {
    if s[0] == x then s[1..]
    else
      var i := FirstIndex(s[1..], x);
      assert s[..i + 1] == [s[0]] + s[1..][..i];
      assert s[i + 2..] == s[1..][i + 1..];
      [s[0]] + RemoveFirst(s[1..], x)
  }

  /** `list.remove(x)` takes exactly one `x` out of the list and nothing else. */
  lemma RemoveFirstMultiset<T>(s: seq<T>, x: T)
    requires x in s
    ensures multiset(RemoveFirst(s, x)) == multiset(s) - multiset{x}
  {
    var i := FirstIndex(s, x);
    assert s == s[..i] + [x] + s[i + 1..];
  }
}
