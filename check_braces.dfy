/**
 * The brace checker script: a running `{`/`}` balance over the lines of a
 * file, the first line that ends with a negative balance, every such line,
 * and, when braces are left open, a stack pass that finds the lines of the
 * unclosed `{` and a context window around each.
 */
module CheckBraces {
  import opened Wrappers
  import opened Text

  // ------------------------------------------------------------ the balance

  /** The occurrences of `c` in `s`. */
  function Count(s: string, c: char): nat
  {
    if s == [] then 0 else Count(s[..|s| - 1], c) + (if s[|s| - 1] == c then 1 else 0)
  }

  /** What one line adds to the balance. */
  function Delta(line: string): int
  {
    Count(line, '{') - Count(line, '}')
  }

  /** The balance at the end of the last of `lines`. */
  function Balance(lines: seq<string>): int
  {
    if lines == [] then 0 else Balance(lines[..|lines| - 1]) + Delta(lines[|lines| - 1])
  }

  /** Balance at the end of line `i` (1-based), the value the loop holds after that line. */
  function BalanceAt(lines: seq<string>, i: nat): int
    requires i <= |lines|
  {
    Balance(lines[..i])
  }

  lemma {:induction false} BalanceIsCounts(lines: seq<string>)
    ensures Balance(lines) == TotalCount(lines, '{') - TotalCount(lines, '}')
  {
    if lines != [] {
      BalanceIsCounts(lines[..|lines| - 1]);
    }
  }

  /** The occurrences of `c` over all lines. */
  function TotalCount(lines: seq<string>, c: char): nat
  {
    if lines == [] then 0 else TotalCount(lines[..|lines| - 1], c) + Count(lines[|lines| - 1], c)
  }

  /** The first line (1-based) whose end-of-line balance is negative. */
  function FirstNegativeOf(lines: seq<string>): (r: Option<nat>)
    ensures r.Some? ==> 1 <= r.value <= |lines|
  {
    if lines == [] then None
    else match FirstNegativeOf(lines[..|lines| - 1])
      case Some(i) => Some(i)
      case None => if Balance(lines) < 0 then Some(|lines|) else None
  }

  lemma PrefixOfPrefix(lines: seq<string>, n: nat, j: nat)
    requires j <= n <= |lines|
    ensures lines[..n][..j] == lines[..j]
  {
  }

  /**
   * `first_negative` is the first line ending below zero, and there is none
   * exactly when every line ends at zero or above.
   */
  lemma {:induction false} FirstNegativeIsFirst(lines: seq<string>)
    ensures FirstNegativeOf(lines).None? <==> forall i :: 1 <= i <= |lines| ==> BalanceAt(lines, i) >= 0
    ensures FirstNegativeOf(lines).Some? ==>
      var f := FirstNegativeOf(lines).value;
      BalanceAt(lines, f) < 0 && forall i :: 1 <= i < f ==> BalanceAt(lines, i) >= 0
  {
    if lines != [] {
      var init := lines[..|lines| - 1];
      FirstNegativeIsFirst(init);
      forall i | 1 <= i <= |init|
        ensures BalanceAt(init, i) == BalanceAt(lines, i)
      {
        PrefixOfPrefix(lines, |lines| - 1, i);
      }
      assert lines[..|lines|] == lines;
    }
  }

  /** A dip below zero in the middle of a line that recovers by its end is not reported. */
  lemma MidLineDipIgnored()
    ensures Balance(["}{"]) == 0 && FirstNegativeOf(["}{"]) == None
  {
    assert ["}{"][..0] == [];
    assert "}{"[..1] == "}";
    assert "}"[..0] == [];
  }

  /** `str.strip()`: the line without its leading and trailing whitespace. */
  function Strip(line: string): string
  {
    StripStart(StripEnd(line))
  }

  /** The stripped line is a slice of the line that neither starts nor ends with whitespace. */
  lemma StripTrims(line: string)
    ensures exists i, j :: 0 <= i <= j <= |line| && Strip(line) == line[i..j]
    ensures Strip(line) != [] ==> !IsPySpace(Strip(line)[0]) && !IsPySpace(Strip(line)[|Strip(line)| - 1])
  {
    var t := StripEnd(line);
    var r := StripStart(t);
    assert Strip(line) == r == line[|t| - |r|..|t|];
    if r != [] {
      assert r[|r| - 1] == t[|t| - 1];
    }
  }

  /** A line the scan reports: its number, its end-of-line balance and its text stripped. */
  datatype Negative = Negative(line: nat, balance: int, text: string)

  /** The report for the last of `lines`, if it ends below zero. */
  function LastNegative(lines: seq<string>): (r: seq<Negative>)
    requires lines != []
    ensures |r| <= 1 && forall n :: n in r ==> n.line == |lines|
  {
    var b := Balance(lines);
    if b < 0 then [Negative(|lines|, b, Strip(lines[|lines| - 1]))] else []
  }

  /** Every line ending below zero, in order. */
  function NegativesOf(lines: seq<string>): seq<Negative>
  {
    if lines == [] then [] else NegativesOf(lines[..|lines| - 1]) + LastNegative(lines)
  }

  /** What a report says about line `n` of `lines`. */
  predicate Reports(lines: seq<string>, n: Negative)
  {
    1 <= n.line <= |lines| && n.balance == BalanceAt(lines, n.line) && n.balance < 0 && n.text == Strip(lines[n.line - 1])
  }

  lemma ReportsOfPrefix(lines: seq<string>, n: Negative)
    requires lines != [] && n.line < |lines|
    ensures Reports(lines[..|lines| - 1], n) <==> Reports(lines, n)
  {
    if 1 <= n.line {
      var init := lines[..|lines| - 1];
      PrefixOfPrefix(lines, |lines| - 1, n.line);
      assert BalanceAt(init, n.line) == BalanceAt(lines, n.line);
      assert init[n.line - 1] == lines[n.line - 1];
    }
  }

  /** `negatives` holds exactly the lines ending below zero, each with its balance. */
  lemma {:induction false} NegativesExactly(lines: seq<string>)
    ensures forall n :: n in NegativesOf(lines) <==> Reports(lines, n)
  {
    if lines != [] {
      var init := lines[..|lines| - 1];
      NegativesExactly(init);
      NegativesBounded(init);
      forall n
        ensures n in NegativesOf(lines) <==> Reports(lines, n)
      {
        NegativeStep(lines, n);
      }
    }
  }

  /** One more line: a report is in the list exactly when it was before or is about the new line. */
  lemma NegativeStep(lines: seq<string>, n: Negative)
    requires lines != []
    requires n in NegativesOf(lines[..|lines| - 1]) <==> Reports(lines[..|lines| - 1], n)
    requires n in NegativesOf(lines[..|lines| - 1]) ==> 1 <= n.line <= |lines| - 1
    ensures n in NegativesOf(lines) <==> Reports(lines, n)
  {
    var init := lines[..|lines| - 1];
    var last := LastNegative(lines);
    assert NegativesOf(lines) == NegativesOf(init) + last;
    if n.line < |lines| {
      ReportsOfPrefix(lines, n);
      assert n !in last;
    } else if n.line == |lines| {
      assert n !in NegativesOf(init);
      LastNegativeExactly(lines, n);
    } else {
      assert n !in NegativesOf(init) && n !in last;
    }
  }

  lemma LastNegativeExactly(lines: seq<string>, n: Negative)
    requires lines != [] && n.line == |lines|
    ensures n in LastNegative(lines) <==> Reports(lines, n)
  {
    assert lines[..|lines|] == lines;
  }

  /** Every reported line is a line of the file. */
  lemma {:induction false} NegativesBounded(lines: seq<string>)
    ensures forall n :: n in NegativesOf(lines) ==> 1 <= n.line <= |lines|
  {
    if lines != [] {
      NegativesBounded(lines[..|lines| - 1]);
    }
  }

  /** The negative lines come in increasing line order. */
  lemma {:induction false} NegativesInOrder(lines: seq<string>)
    ensures forall a, b :: 0 <= a < b < |NegativesOf(lines)| ==> NegativesOf(lines)[a].line < NegativesOf(lines)[b].line
  {
    if lines != [] {
      var init := lines[..|lines| - 1];
      NegativesInOrder(init);
      NegativesBounded(init);
      var ns := NegativesOf(lines);
      var last := LastNegative(lines);
      assert ns == NegativesOf(init) + last;
      forall a, b | 0 <= a < b < |ns|
        ensures ns[a].line < ns[b].line
      {
        if b >= |NegativesOf(init)| {
          assert ns[a] in NegativesOf(init);
          assert ns[b] in last;
        }
      }
    }
  }

  /** At most the first 20 negative lines are printed. */
  const SHOWN_NEGATIVES: nat := 20

  /** The first pass of the script: the balance, the first negative line and the negative lines. */
  method Scan(lines: seq<string>) returns (balance: int, firstNegative: Option<nat>, negatives: seq<Negative>)
    ensures balance == Balance(lines)
    ensures firstNegative == FirstNegativeOf(lines)
    ensures negatives == NegativesOf(lines)
  {
    balance, firstNegative, negatives := 0, None, [];
    for i := 0 to |lines|
      invariant balance == Balance(lines[..i])
      invariant firstNegative == FirstNegativeOf(lines[..i])
      invariant negatives == NegativesOf(lines[..i])
    {
      var line := lines[i];
      for k := 0 to |line|
        invariant balance == Balance(lines[..i]) + Delta(line[..k])
      {
        assert line[..k + 1][..k] == line[..k];
        if line[k] == '{' {
          balance := balance + 1;
        } else if line[k] == '}' {
          balance := balance - 1;
        }
      }
      assert line[..|line|] == line;
      var upTo := lines[..i + 1];
      assert upTo[..i] == lines[..i] && upTo[i] == line;
      assert Balance(upTo) == balance;
      assert NegativesOf(upTo) == NegativesOf(lines[..i]) + LastNegative(upTo);
      if balance < 0 && firstNegative.None? {
        firstNegative := Some(i + 1);
      }
      if balance < 0 {
        negatives := negatives + [Negative(i + 1, balance, Strip(line))];
      }
    }
    assert lines[..|lines|] == lines;
  }

  // ------------------------------------------------------------ the stack pass

  /** One character of the stack pass on line `ln`: `{` pushes the line, `}` pops when it can. */
  function StepChar(st: seq<nat>, ln: nat, ch: char): seq<nat>
  {
    if ch == '{' then st + [ln] else if ch == '}' && st != [] then st[..|st| - 1] else st
  }

  /** The stack after the characters of `s` on line `ln`. */
  function StackLine(st: seq<nat>, ln: nat, s: string): seq<nat>
  {
    if s == [] then st else StepChar(StackLine(st, ln, s[..|s| - 1]), ln, s[|s| - 1])
  }

  /** The `}` of `s` that found the stack empty and were ignored. */
  function IgnoredLine(st: seq<nat>, ln: nat, s: string): nat
  {
    if s == [] then 0
    else IgnoredLine(st, ln, s[..|s| - 1]) + (if s[|s| - 1] == '}' && StackLine(st, ln, s[..|s| - 1]) == [] then 1 else 0)
  }

  /** The stack after the whole of `lines`. */
  function StackOf(lines: seq<string>): seq<nat>
  {
    if lines == [] then [] else StackLine(StackOf(lines[..|lines| - 1]), |lines|, lines[|lines| - 1])
  }

  function IgnoredOf(lines: seq<string>): nat
  {
    if lines == [] then 0
    else IgnoredOf(lines[..|lines| - 1]) + IgnoredLine(StackOf(lines[..|lines| - 1]), |lines|, lines[|lines| - 1])
  }

  lemma {:induction false} StackLineSize(st: seq<nat>, ln: nat, s: string)
    ensures |StackLine(st, ln, s)| == |st| + Delta(s) + IgnoredLine(st, ln, s)
  {
    if s != [] {
      StackLineSize(st, ln, s[..|s| - 1]);
    }
  }

  /** The stack ends up as deep as the final balance plus the closing braces it had to ignore. */
  lemma {:induction false} StackSize(lines: seq<string>)
    ensures |StackOf(lines)| == Balance(lines) + IgnoredOf(lines)
  {
    if lines != [] {
      StackSize(lines[..|lines| - 1]);
      StackLineSize(StackOf(lines[..|lines| - 1]), |lines|, lines[|lines| - 1]);
    }
  }

  /** Every entry is a line number pushed so far, in non-decreasing order. */
  predicate LineStack(st: seq<nat>, n: nat)
  {
    && (forall i :: 0 <= i < |st| ==> 1 <= st[i] <= n)
    && (forall i, j :: 0 <= i < j < |st| ==> st[i] <= st[j])
  }

  lemma {:induction false} StackLineOrdered(st: seq<nat>, ln: nat, s: string)
    requires ln >= 1 && LineStack(st, ln)
    ensures LineStack(StackLine(st, ln, s), ln)
  {
    if s != [] {
      StackLineOrdered(st, ln, s[..|s| - 1]);
    }
  }

  /** The stack lists lines of the file, earliest first, so its last entries are the latest unclosed braces. */
  lemma {:induction false} StackOrdered(lines: seq<string>)
    ensures LineStack(StackOf(lines), |lines|)
  {
    if lines != [] {
      StackOrdered(lines[..|lines| - 1]);
      StackLineOrdered(StackOf(lines[..|lines| - 1]), |lines|, lines[|lines| - 1]);
    }
  }

  /** The stack pass. */
  method UnclosedStack(lines: seq<string>) returns (stack: seq<nat>)
    ensures stack == StackOf(lines)
  {
    stack := [];
    for i := 0 to |lines|
      invariant stack == StackOf(lines[..i])
    {
      var line := lines[i];
      ghost var before := stack;
      for k := 0 to |line|
        invariant stack == StackLine(before, i + 1, line[..k])
      {
        assert line[..k + 1][..k] == line[..k];
        if line[k] == '{' {
          stack := stack + [i + 1];
        } else if line[k] == '}' {
          if stack != [] {
            stack := stack[..|stack| - 1];
          }
        }
      }
      assert line[..|line|] == line;
      assert lines[..i + 1][..i] == lines[..i];
    }
    assert lines[..|lines|] == lines;
  }

  // ------------------------------------------------------------ the report

  /** At most the last 10 unclosed braces are shown. */
  const SHOWN_UNCLOSED: nat := 10

  /** The lines shown around line `ln`: three either side, clipped to the file. */
  function Window(ln: int, n: nat): (r: (int, int))
    ensures r.0 == (if ln - 3 > 1 then ln - 3 else 1)
    ensures r.1 == (if ln + 3 < n then ln + 3 else n)
    ensures 1 <= ln <= n ==> 1 <= r.0 <= ln <= r.1 <= n && r.1 - r.0 <= 6
  {
    (if ln - 3 > 1 then ln - 3 else 1, if ln + 3 < n then ln + 3 else n)
  }

  /** A shown line of context: marked when it is the brace's own line, its number and its text. */
  datatype ContextLine = ContextLine(marked: bool, number: nat, text: string)

  function Context(lines: seq<string>, ln: nat): (r: seq<ContextLine>)
    requires 1 <= ln <= |lines|
    ensures var (lo, hi) := Window(ln, |lines|);
      && |r| == hi - lo + 1
      && forall k :: 0 <= k < |r| ==>
           r[k].number == lo + k && r[k].text == lines[lo + k - 1] && (r[k].marked <==> lo + k == ln)
  {
    var (lo, hi) := Window(ln, |lines|);
    seq(hi - lo + 1, k requires 0 <= k < hi - lo + 1 => ContextLine(lo + k == ln, lo + k, lines[lo + k - 1]))
  }

  /** What the script reports: the summary of the scan and, when braces are left open, the context of the latest ones. */
  datatype Report = Report(balance: int, firstNegative: Option<nat>, shownNegatives: seq<Negative>,
                           unclosed: seq<(nat, seq<ContextLine>)>)

  function Last<T>(s: seq<T>, n: nat): (r: seq<T>)
    ensures |r| == if |s| < n then |s| else n
    ensures r == s[|s| - |r|..]
  {
    if |s| <= n then s else s[|s| - n..]
  }

  function First<T>(s: seq<T>, n: nat): (r: seq<T>)
    ensures |r| == if |s| < n then |s| else n
    ensures r == s[..|r|]
  {
    if |s| <= n then s else s[..n]
  }

  /** The unclosed braces shown, each with its context. */
  function Contexts(lines: seq<string>, latest: seq<nat>): (r: seq<(nat, seq<ContextLine>)>)
    requires forall k :: 0 <= k < |latest| ==> 1 <= latest[k] <= |lines|
    ensures |r| == |latest| && forall k :: 0 <= k < |r| ==> r[k].0 == latest[k] && r[k].1 == Context(lines, latest[k])
  {
    seq(|latest|, k requires 0 <= k < |latest| => (latest[k], Context(lines, latest[k])))
  }

  /** The script's output. */
  method Check(lines: seq<string>) returns (report: Report)
    ensures report.balance == Balance(lines) && report.firstNegative == FirstNegativeOf(lines)
    ensures report.shownNegatives == First(NegativesOf(lines), SHOWN_NEGATIVES)
    ensures Balance(lines) <= 0 ==> report.unclosed == []
    ensures Balance(lines) > 0 ==>
      var latest := Last(StackOf(lines), SHOWN_UNCLOSED);
      && |report.unclosed| == |latest|
      && forall k :: 0 <= k < |latest| ==>
           1 <= latest[k] <= |lines| && report.unclosed[k] == (latest[k], Context(lines, latest[k]))
  {
    var balance, firstNegative, negatives := Scan(lines);
    var unclosed: seq<(nat, seq<ContextLine>)> := [];
    if balance > 0 {
      var stack := UnclosedStack(lines);
      StackOrdered(lines);
      var latest := Last(stack, SHOWN_UNCLOSED);
      assert forall k :: 0 <= k < |latest| ==> latest[k] == stack[|stack| - |latest| + k];
      unclosed := Contexts(lines, latest);
    }
    report := Report(balance, firstNegative, First(negatives, SHOWN_NEGATIVES), unclosed);
  }

  /** With braces left open the report always names at least one line: the stack holds at least the excess. */
  lemma OpenBracesReported(lines: seq<string>)
    requires Balance(lines) > 0
    ensures |Last(StackOf(lines), SHOWN_UNCLOSED)| >= 1
  {
    StackSize(lines);
  }
}
