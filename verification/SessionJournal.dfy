/** How much of the journal is read, told of its text, and in which order its records come out. */
module SessionJournal {
  import opened Options
  import opened SessionEvents
  import opened SessionGrouping

  /** The text of some lines, each ended by a line break; the letters do not matter. */
  function Text(lines: seq<Line>): string {
    if lines == [] then "" else seq(lines[0].size, _ => '.') + "\n" + Text(lines[1..])
  }

  lemma {:induction false} TextPush(lines: seq<Line>, line: Line)
    ensures |Text(lines + [line])| == |Text(lines)| + line.size + 1
  {
    if lines == [] {
      assert Text([]) == "" && ([] + [line])[1..] == [];
    } else {
      assert (lines + [line])[1..] == lines[1..] + [line];
      TextPush(lines[1..], line);
    }
  }

  lemma {:induction false} BytesText(lines: seq<Line>, n: nat)
    requires n <= |lines|
    ensures Bytes(lines, n) == |Text(lines[..n])|
  {
    if n > 0 {
      BytesText(lines, n - 1);
      assert lines[..n] == lines[..n - 1] + [lines[n - 1]];
      TextPush(lines[..n - 1], lines[n - 1]);
    }
  }

  lemma {:induction false} BytesGrow(lines: seq<Line>, m: nat, n: nat)
    requires m <= n <= |lines|
    ensures Bytes(lines, m) <= Bytes(lines, n)
    decreases n
  {
    if m < n { BytesGrow(lines, m, n - 1); }
  }

  /** The newest lines that are read are as many as fit both into a thousand lines and into 512 KiB of
      text. */
  lemma BudgetExact(lines: seq<Line>, n: nat)
    requires n <= |lines|
    ensures Budget(lines, n) <==>
            forall m | 0 <= m <= |lines| :: m <= n <==> m <= 1000 && |Text(lines[..m])| <= 524288
  {
    forall m | 0 <= m <= |lines|
      ensures Bytes(lines, m) == |Text(lines[..m])|
      ensures m <= n ==> Bytes(lines, m) <= Bytes(lines, n)
      ensures n < m ==> Bytes(lines, n + 1) <= Bytes(lines, m) {
      BytesText(lines, m);
      if m <= n { BytesGrow(lines, m, n); } else { BytesGrow(lines, n + 1, m); }
    }
    if n < |lines| { BytesText(lines, n + 1); }
  }

  lemma {:induction false} RecognisedAt(lines: seq<Line>, n: nat, i: nat)
    requires i < n <= |lines| && lines[i].record.Some?
    ensures |Recognised(lines, i)| < |Recognised(lines, n)|
    ensures Recognised(lines, n)[|Recognised(lines, i)|] == lines[i].record.value
  {
    if i < n - 1 { RecognisedAt(lines, n - 1, i); }
  }

  /** The records come out oldest first: as many come before that of a line as lines after it were
      recognised. */
  lemma OldestFirst(lines: seq<Line>, n: nat, i: nat)
    requires i < n <= |lines| && lines[i].record.Some?
    ensures var after := set k | i < k < n && lines[k].record.Some?; var records := Reversed(Recognised(lines, n)); (
      |after| < |records| && records[|after|] == lines[i].record.value)
  {
    RecognisedAt(lines, n, i);
    CountRecognised(lines, i, n);
  }

  lemma {:induction false} CountRecognised(lines: seq<Line>, i: nat, n: nat)
    requires i < n <= |lines| && lines[i].record.Some?
    ensures |Recognised(lines, n)| == |Recognised(lines, i)| + 1 + |set k | i < k < n && lines[k].record.Some?|
  {
    var after := set k | i < k < n && lines[k].record.Some?;
    if i == n - 1 {
      assert after == {};
    } else {
      CountRecognised(lines, i, n - 1);
      var before := set k | i < k < n - 1 && lines[k].record.Some?;
      assert after == if lines[n - 1].record.Some? then before + {n - 1} else before;
    }
  }

  lemma {:induction false} AllRecords(lines: seq<Line>, n: nat)
    requires n <= |lines|
    ensures |Reversed(Recognised(lines, n))| == |set k | 0 <= k < n && lines[k].record.Some?|
  {
    var all := set k | 0 <= k < n && lines[k].record.Some?;
    if n == 0 {
      assert all == {};
    } else {
      AllRecords(lines, n - 1);
      var before := set k | 0 <= k < n - 1 && lines[k].record.Some?;
      assert all == if lines[n - 1].record.Some? then before + {n - 1} else before;
    }
  }
}
