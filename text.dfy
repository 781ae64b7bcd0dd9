/** Character-level text operations that the ingestion path builds on:
    searching for a delimiter, splitting on it, joining back, splitting a
    stream into terminated lines, and printing a counter in decimal. */
module Text {

  // ---------------------------------------------------------------------
  // Searching and counting
  // ---------------------------------------------------------------------

  /** The first index at or after `from` holding `c`, or -1 when there is
      none; `from == |s|` is allowed and finds nothing (String.IndexOf(char, int)). */
  function IndexOf(s: string, c: char, from: nat): (r: int)
    requires from <= |s|
    ensures r == -1 || (from <= r < |s| && s[r] == c)
    ensures r == -1 ==> forall i :: from <= i < |s| ==> s[i] != c
    ensures r != -1 ==> forall i :: from <= i < r ==> s[i] != c
    decreases |s| - from
  {
    if from == |s| then -1
    else if s[from] == c then from
    else IndexOf(s, c, from + 1)
  }

  /** Searching a suffix from its start finds the same character as
      searching the whole string from the suffix's offset. */
  lemma IndexOfSuffix(s: string, c: char, from: nat)
    requires from <= |s|
    ensures IndexOf(s[from..], c, 0) == (if IndexOf(s, c, from) == -1 then -1 else IndexOf(s, c, from) - from)
  {
    assert forall k :: 0 <= k < |s| - from ==> s[from..][k] == s[from + k];
  }

  /** The position of the first `c` in `x` is also its first position in
      `x + y`. */
  lemma IndexOfPrefix(x: string, y: string, c: char)
    requires IndexOf(x, c, 0) != -1
    ensures IndexOf(x + y, c, 0) == IndexOf(x, c, 0)
  {
    assert forall k :: 0 <= k < |x| ==> (x + y)[k] == x[k];
  }

  /** When `x` holds no `c`, the search in `x + y` lands in `y`. */
  lemma IndexOfAfterFree(x: string, y: string, c: char)
    requires IndexOf(x, c, 0) == -1
    ensures IndexOf(x + y, c, 0) == (if IndexOf(y, c, 0) == -1 then -1 else |x| + IndexOf(y, c, 0))
  {
    IndexOfSuffix(x + y, c, |x|);
    assert (x + y)[|x|..] == y;
    assert forall k :: 0 <= k < |x| ==> (x + y)[k] == x[k];
  }

  /** The number of occurrences of `c` in `s`. */
  function Count(s: string, c: char): nat
  {
    if s == [] then 0 else (if s[0] == c then 1 else 0) + Count(s[1..], c)
  }

  lemma {:induction false} CountAppend(a: string, b: string, c: char)
    ensures Count(a + b, c) == Count(a, c) + Count(b, c)
  {
    if a == [] {
      assert a + b == b;
    } else {
      assert (a + b)[1..] == a[1..] + b;
      CountAppend(a[1..], b, c);
    }
  }

  lemma {:induction false} CountNone(s: string, c: char)
    requires forall i :: 0 <= i < |s| ==> s[i] != c
    ensures Count(s, c) == 0
  {
    if s != [] {
      CountNone(s[1..], c);
    }
  }

  // ---------------------------------------------------------------------
  // Splitting a row into fields
  // ---------------------------------------------------------------------

  /** The fields of `s` from position `from` on, separated by `d`, in the
      way the row and label parsers cut them: every delimiter closes a
      field (empty ones included), and the text after the last delimiter
      is one more field unless it is empty. */
  function SplitFrom(s: string, d: char, from: nat): seq<string>
    requires from <= |s|
    decreases |s| - from
  {
    var next := IndexOf(s, d, from);
    if next == -1 then
      (if from != |s| then [s[from..]] else [])
    else
      [s[from..next]] + SplitFrom(s, d, next + 1)
  }

  function Split(s: string, d: char): seq<string>
  {
    SplitFrom(s, d, 0)
  }

  /** `fs` joined with `d` between consecutive elements. */
  function Join(fs: seq<string>, d: char): string
  {
    if |fs| == 0 then []
    else if |fs| == 1 then fs[0]
    else fs[0] + [d] + Join(fs[1..], d)
  }

  /** `s` without one trailing `d`, if it has one. */
  function DropTrailing(s: string, d: char): string
  {
    if s != [] && s[|s| - 1] == d then s[..|s| - 1] else s
  }

  /** One field less to go: the fields from `from` are the one ending at
      the next delimiter, then the fields after it. */
  lemma SplitFromStep(s: string, d: char, from: nat, next: int)
    requires from <= |s| && next == IndexOf(s, d, from) && next != -1
    ensures SplitFrom(s, d, from) == [s[from..next]] + SplitFrom(s, d, next + 1)
  {
  }

  /** The last field: what follows the last delimiter, unless empty. */
  lemma SplitFromEnd(s: string, d: char, from: nat)
    requires from <= |s| && IndexOf(s, d, from) == -1
    ensures SplitFrom(s, d, from) == (if from != |s| then [s[from..]] else [])
  {
  }

  /** No field contains the delimiter. */
  lemma {:induction false} SplitFromFieldsFree(s: string, d: char, from: nat)
    requires from <= |s|
    ensures forall k, i :: 0 <= k < |SplitFrom(s, d, from)| && 0 <= i < |SplitFrom(s, d, from)[k]| ==>
      SplitFrom(s, d, from)[k][i] != d
    decreases |s| - from
  {
    var next := IndexOf(s, d, from);
    if next != -1 {
      SplitFromFieldsFree(s, d, next + 1);
    }
  }

  /** Joining the fields gives back the text minus one trailing delimiter. */
  lemma {:induction false} SplitFromJoin(s: string, d: char, from: nat)
    requires from <= |s|
    ensures Join(SplitFrom(s, d, from), d) == DropTrailing(s[from..], d)
    decreases |s| - from
  {
    var next := IndexOf(s, d, from);
    if next == -1 {
      if from != |s| {
        assert s[from..][|s[from..]| - 1] == s[|s| - 1];
      }
    } else {
      SplitFromJoin(s, d, next + 1);
      SplitFromJoinStep(s, d, from, next);
    }
  }

  /** The step of SplitFromJoin: one more field joined in front. */
  lemma SplitFromJoinStep(s: string, d: char, from: nat, next: int)
    requires from <= |s| && next == IndexOf(s, d, from) && next != -1
    requires Join(SplitFrom(s, d, next + 1), d) == DropTrailing(s[next + 1..], d)
    ensures Join(SplitFrom(s, d, from), d) == DropTrailing(s[from..], d)
  {
    SplitFromStep(s, d, from, next);
    if next + 1 == |s| {
      SplitFromJoinLast(s, d, from, next);
    } else {
      SplitFromJoinMore(s, d, from, next);
    }
  }

  /** The step when the delimiter found is the last character. */
  lemma SplitFromJoinLast(s: string, d: char, from: nat, next: int)
    requires from <= next < |s| && next + 1 == |s| && next == IndexOf(s, d, from)
    requires SplitFrom(s, d, from) == [s[from..next]] + SplitFrom(s, d, next + 1)
    ensures Join(SplitFrom(s, d, from), d) == DropTrailing(s[from..], d)
  {
    var field := s[from..next];
    assert SplitFrom(s, d, next + 1) == [] by {
      SplitFromEnd(s, d, next + 1);
    }
    assert SplitFrom(s, d, from) == [field];
    assert s[from..] == field + [d];
  }

  /** The step when text follows the delimiter found. */
  lemma SplitFromJoinMore(s: string, d: char, from: nat, next: int)
    requires from <= next && next + 1 < |s| && next == IndexOf(s, d, from)
    requires SplitFrom(s, d, from) == [s[from..next]] + SplitFrom(s, d, next + 1)
    requires Join(SplitFrom(s, d, next + 1), d) == DropTrailing(s[next + 1..], d)
    ensures Join(SplitFrom(s, d, from), d) == DropTrailing(s[from..], d)
  {
    var field, tail := s[from..next], s[next + 1..];
    var rest := SplitFrom(s, d, next + 1);
    SplitFromNonEmpty(s, d, next + 1);
    calc {
      Join(SplitFrom(s, d, from), d);
      Join([field] + rest, d);
      { JoinCons(field, rest, d); }
      field + [d] + Join(rest, d);
      field + [d] + DropTrailing(tail, d);
      { DropTrailingAppend(field + [d], tail, d); }
      DropTrailing(field + [d] + tail, d);
      { assert s[from..] == field + [d] + tail; }
      DropTrailing(s[from..], d);
    }
  }

  /** A non-empty remainder has at least one field. */
  lemma SplitFromNonEmpty(s: string, d: char, from: nat)
    requires from < |s|
    ensures SplitFrom(s, d, from) != []
  {
    if IndexOf(s, d, from) == -1 {
      SplitFromEnd(s, d, from);
    } else {
      SplitFromStep(s, d, from, IndexOf(s, d, from));
    }
  }

  lemma JoinCons(field: string, rest: seq<string>, d: char)
    requires rest != []
    ensures Join([field] + rest, d) == field + [d] + Join(rest, d)
  {
    assert ([field] + rest)[1..] == rest;
  }

  lemma DropTrailingAppend(a: string, b: string, d: char)
    requires b != []
    ensures DropTrailing(a + b, d) == a + DropTrailing(b, d)
  {
    if b[|b| - 1] == d {
      assert (a + b)[..|a + b| - 1] == a + b[..|b| - 1];
    }
  }

  /** A row has one field per delimiter, plus one, minus one when the row
      is empty or ends with the delimiter. */
  lemma {:induction false} SplitFromCount(s: string, d: char, from: nat)
    requires from <= |s|
    ensures |SplitFrom(s, d, from)| ==
      Count(s[from..], d) + 1 - (if from == |s| || s[|s| - 1] == d then 1 else 0)
    decreases |s| - from
  {
    var next := IndexOf(s, d, from);
    if next == -1 {
      assert Count(s[from..], d) == 0 by {
        assert forall k :: 0 <= k < |s[from..]| ==> s[from..][k] == s[from + k];
        CountNone(s[from..], d);
      }
      assert |SplitFrom(s, d, from)| == (if from != |s| then 1 else 0) by {
        SplitFromEnd(s, d, from);
      }
    } else {
      SplitFromCount(s, d, next + 1);
      assert |SplitFrom(s, d, from)| == |SplitFrom(s, d, next + 1)| + 1 by {
        SplitFromStep(s, d, from, next);
      }
      assert Count(s[from..], d) == Count(s[next + 1..], d) + 1 by {
        IndexOfSuffix(s, d, from);
        CountSplitAt(s[from..], next - from, d);
        assert s[from..][next - from + 1..] == s[next + 1..];
      }
      if next + 1 == |s| {
        assert s[|s| - 1] == d;
      }
    }
  }

  /** Cutting a text after its first `d` leaves one `d` fewer. */
  lemma CountSplitAt(t: string, i: nat, d: char)
    requires i < |t| && t[i] == d && forall k :: 0 <= k < i ==> t[k] != d
    ensures Count(t, d) == Count(t[i + 1..], d) + 1
  {
    assert t == t[..i] + ([d] + t[i + 1..]);
    CountAppend(t[..i], [d] + t[i + 1..], d);
    CountAppend([d], t[i + 1..], d);
    CountNone(t[..i], d);
    assert Count([d], d) == 1;
  }

  /** Split, stated for a whole row. */
  lemma SplitFacts(s: string, d: char)
    ensures Join(Split(s, d), d) == DropTrailing(s, d)
    ensures |Split(s, d)| == Count(s, d) + 1 - (if s == [] || s[|s| - 1] == d then 1 else 0)
    ensures forall k, i :: 0 <= k < |Split(s, d)| && 0 <= i < |Split(s, d)[k]| ==> Split(s, d)[k][i] != d
    ensures Split(s, d) == [] <==> s == []
  {
    SplitFromJoin(s, d, 0);
    SplitFromCount(s, d, 0);
    SplitFromFieldsFree(s, d, 0);
    assert s[0..] == s;
  }

  // ---------------------------------------------------------------------
  // Splitting a stream into newline-terminated lines
  // ---------------------------------------------------------------------

  const NewLine: char := '\n'

  /** The complete lines of `t`: the text before each '\n', in order. */
  function Lines(t: string): seq<string>
    decreases |t|
  {
    var i := IndexOf(t, NewLine, 0);
    if i == -1 then [] else [t[..i]] + Lines(t[i + 1..])
  }

  /** The text of `t` after its last '\n' (all of `t` when it has none). */
  function Rest(t: string): string
    decreases |t|
  {
    var i := IndexOf(t, NewLine, 0);
    if i == -1 then t else Rest(t[i + 1..])
  }

  /** Unfolding the rest past one terminator. */
  lemma RestStep(t: string, i: int)
    requires i == IndexOf(t, NewLine, 0) && i != -1
    ensures Rest(t) == Rest(t[i + 1..])
  {
  }

  /** Unfolding the lines past one terminator. */
  lemma LinesStep(t: string, i: int)
    requires i == IndexOf(t, NewLine, 0) && i != -1
    ensures Lines(t) == [t[..i]] + Lines(t[i + 1..])
  {
  }

  /** Every line followed by its terminator. */
  function Terminated(lines: seq<string>): string
  {
    if lines == [] then [] else lines[0] + [NewLine] + Terminated(lines[1..])
  }

  /** A stream is its complete lines, each terminated, then its rest. */
  lemma LinesRestCover(t: string)
    ensures t == Terminated(Lines(t)) + Rest(t)
    ensures |Lines(t)| == Count(t, NewLine)
    ensures forall i :: 0 <= i < |Rest(t)| ==> Rest(t)[i] != NewLine
    ensures forall k, i :: 0 <= k < |Lines(t)| && 0 <= i < |Lines(t)[k]| ==> Lines(t)[k][i] != NewLine
  {
    TerminatedLines(t);
    LinesCount(t);
    LinesFree(t);
  }

  lemma {:induction false} TerminatedLines(t: string)
    ensures t == Terminated(Lines(t)) + Rest(t)
    decreases |t|
  {
    var i := IndexOf(t, NewLine, 0);
    if i != -1 {
      var head, tail := t[..i], t[i + 1..];
      TerminatedLines(tail);
      LinesStep(t, i);
      RestStep(t, i);
      TerminatedCons(head, Lines(tail));
      AppendAssociates(head + [NewLine], Terminated(Lines(tail)), Rest(tail));
      assert t == head + [NewLine] + tail;
    }
  }

  lemma TerminatedCons(line: string, lines: seq<string>)
    ensures Terminated([line] + lines) == line + [NewLine] + Terminated(lines)
  {
    assert ([line] + lines)[1..] == lines;
  }

  lemma AppendAssociates<T>(a: seq<T>, b: seq<T>, c: seq<T>)
    ensures a + b + c == a + (b + c)
  {
  }

  lemma {:induction false} LinesCount(t: string)
    ensures |Lines(t)| == Count(t, NewLine)
    decreases |t|
  {
    var i := IndexOf(t, NewLine, 0);
    if i == -1 {
      CountNone(t, NewLine);
    } else {
      LinesCount(t[i + 1..]);
      LinesStep(t, i);
      CountSplitAt(t, i, NewLine);
    }
  }

  lemma {:induction false} LinesFree(t: string)
    ensures forall i :: 0 <= i < |Rest(t)| ==> Rest(t)[i] != NewLine
    ensures forall k, i :: 0 <= k < |Lines(t)| && 0 <= i < |Lines(t)[k]| ==> Lines(t)[k][i] != NewLine
    decreases |t|
  {
    var i := IndexOf(t, NewLine, 0);
    if i != -1 {
      var tail := t[i + 1..];
      LinesFree(tail);
      LinesStep(t, i);
      RestStep(t, i);
      forall k, j | 0 <= k < |Lines(t)| && 0 <= j < |Lines(t)[k]|
        ensures Lines(t)[k][j] != NewLine
      {
        if k > 0 {
          assert Lines(t)[k] == Lines(tail)[k - 1];
        }
      }
    }
  }

  /** Line splitting composes over concatenation: the lines of `x + y` are
      those of `x`, then those of the rest of `x` continued by `y`. */
  lemma {:induction false} LinesAppend(x: string, y: string)
    ensures Lines(x + y) == Lines(x) + Lines(Rest(x) + y)
    ensures Rest(x + y) == Rest(Rest(x) + y)
    decreases |x|
  {
    var i := IndexOf(x, NewLine, 0);
    if i != -1 {
      IndexOfPrefix(x, y, NewLine);
      LinesStep(x, i);
      RestStep(x, i);
      LinesStep(x + y, i);
      RestStep(x + y, i);
      assert (x + y)[..i] == x[..i];
      assert (x + y)[i + 1..] == x[i + 1..] + y;
      LinesAppend(x[i + 1..], y);
      AppendAssociates([x[..i]], Lines(x[i + 1..]), Lines(Rest(x) + y));
    }
  }

  /** Text without a '\n' has no complete line and is its own rest. */
  lemma NoLines(t: string)
    requires forall i :: 0 <= i < |t| ==> t[i] != NewLine
    ensures Lines(t) == [] && Rest(t) == t
  {
  }

  // ---------------------------------------------------------------------
  // Decimal printing of a counter (Int32.ToString for non-negative values)
  // ---------------------------------------------------------------------

  function DigitChar(d: nat): char
    requires d < 10
  {
    "0123456789"[d]
  }

  function DigitValue(ch: char): nat
  {
    if '0' <= ch <= '9' then (ch - '0') as nat else 0
  }

  /** The decimal digits of `n`, most significant first, no leading zero. */
  function Decimal(n: nat): string
  {
    if n < 10 then [DigitChar(n)] else Decimal(n / 10) + [DigitChar(n % 10)]
  }

  /** The value of a string of decimal digits. */
  function DecimalValue(s: string): nat
  {
    if s == [] then 0 else DecimalValue(s[..|s| - 1]) * 10 + DigitValue(s[|s| - 1])
  }

  /** Reading the printed digits back gives the number: printing is injective. */
  lemma {:induction false} DecimalRoundTrip(n: nat)
    ensures DecimalValue(Decimal(n)) == n
    ensures |Decimal(n)| >= 1
  {
    if n >= 10 {
      DecimalRoundTrip(n / 10);
      var s := Decimal(n / 10) + [DigitChar(n % 10)];
      assert s[..|s| - 1] == Decimal(n / 10);
    }
  }

  lemma DecimalInjective(a: nat, b: nat)
    requires Decimal(a) == Decimal(b)
    ensures a == b
  {
    DecimalRoundTrip(a);
    DecimalRoundTrip(b);
  }
}
