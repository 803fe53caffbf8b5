/**
  * The follow loop of `benes observe logs --follow` (cmd/benes/observe.go): each poll prints the
  * rows whose key is not remembered, and the memory of keys is cut back when it grows too long.
  */
module LogFollow {
  const MAX_REMEMBERED := 5000
  const KEPT := 2500

  /** A log entry: its identity and the line that is printed for it. */
  datatype Row = Row(key: string, line: string)

  /** The remembered keys, as a set and in printing order, and everything printed so far. */
  datatype Feed = Feed(seen: set<string>, order: seq<string>, printed: seq<Row>)

  const EMPTY := Feed({}, [], [])

  function TakeRow(f: Feed, row: Row): Feed {
    if row.key in f.seen then f
    else Feed(f.seen + {row.key}, f.order + [row.key], f.printed + [row])
  }

  function TakeRows(f: Feed, rows: seq<Row>): Feed {
    if rows == [] then f else TakeRow(TakeRows(f, rows[..|rows| - 1]), rows[|rows| - 1])
  }

  function Forget(seen: set<string>, drop: seq<string>): set<string> {
    if drop == [] then seen else Forget(seen, drop[..|drop| - 1]) - {drop[|drop| - 1]}
  }

  function Trim(f: Feed): Feed {
    if |f.order| > MAX_REMEMBERED then
      var cut := |f.order| - KEPT;
      f.(seen := Forget(f.seen, f.order[..cut]), order := f.order[cut..])
    else f
  }

  function Poll(f: Feed, rows: seq<Row>): Feed {
    Trim(TakeRows(f, rows))
  }

  function Polls(f: Feed, polls: seq<seq<Row>>): Feed {
    if polls == [] then f else Poll(Polls(f, polls[..|polls| - 1]), polls[|polls| - 1])
  }

  // ---------------------------------------------------------------- the invariant

  predicate Distinct(s: seq<string>) {
    forall i, j :: 0 <= i < j < |s| ==> s[i] != s[j]
  }

  /** The set holds exactly the remembered keys, each remembered once. */
  ghost predicate SameKeys(seen: set<string>, order: seq<string>) {
    Distinct(order) && forall k :: k in seen <==> k in order
  }

  /** The remembered keys are those of the most recently printed rows, in printing order. */
  predicate Recent(order: seq<string>, printed: seq<Row>) {
    |order| <= |printed| && forall i :: 0 <= i < |order| ==> order[i] == printed[|printed| - |order| + i].key
  }

  /** Either nothing was ever forgotten, or enough is remembered. */
  predicate Window(order: seq<string>, printed: seq<Row>) {
    |order| == |printed| || (|order| >= KEPT && |printed| > MAX_REMEMBERED)
  }

  /** Two printed rows with the same key are more than 2500 printed rows apart. */
  predicate Spaced(printed: seq<Row>) {
    forall i, j :: 0 <= i < j < |printed| && printed[i].key == printed[j].key ==> j - i > KEPT
  }

  ghost predicate Inv(f: Feed) {
    SameKeys(f.seen, f.order) && Recent(f.order, f.printed) && Window(f.order, f.printed) && Spaced(f.printed)
  }

  /** A key that is not among the recent ones was last printed more than 2500 rows ago. */
  lemma NewRowIsFar(order: seq<string>, printed: seq<Row>, row: Row, i: nat)
    requires Recent(order, printed) && Window(order, printed) && row.key !in order
    requires i < |printed|
    ensures printed[i].key == row.key ==> |printed| - i > KEPT
  {
    var start := |printed| - |order|;
    if i >= start {
      assert printed[i].key == order[i - start];
    }
  }

  lemma TakeRowSpaced(order: seq<string>, printed: seq<Row>, row: Row)
    requires Recent(order, printed) && Window(order, printed) && Spaced(printed) && row.key !in order
    ensures Spaced(printed + [row])
  {
    var all := printed + [row];
    forall i, j | 0 <= i < j < |all| && all[i].key == all[j].key ensures j - i > KEPT {
      if j == |printed| {
        NewRowIsFar(order, printed, row, i);
      }
    }
  }

  lemma TakeRowRecent(order: seq<string>, printed: seq<Row>, row: Row)
    requires Recent(order, printed)
    ensures Recent(order + [row.key], printed + [row])
  {
  }

  lemma TakeRowKeepsInv(f: Feed, row: Row)
    requires Inv(f)
    ensures Inv(TakeRow(f, row))
  {
    if row.key !in f.seen {
      TakeRowSpaced(f.order, f.printed, row);
      TakeRowRecent(f.order, f.printed, row);
      SameKeysGrow(f.seen, f.order, row.key);
    }
  }

  lemma SameKeysGrow(seen: set<string>, order: seq<string>, key: string)
    requires SameKeys(seen, order) && key !in seen
    ensures SameKeys(seen + {key}, order + [key])
  {
  }

  lemma {:induction false} TakeRowsKeepInv(f: Feed, rows: seq<Row>)
    requires Inv(f)
    ensures Inv(TakeRows(f, rows))
  {
    if rows != [] {
      TakeRowsKeepInv(f, rows[..|rows| - 1]);
      TakeRowKeepsInv(TakeRows(f, rows[..|rows| - 1]), rows[|rows| - 1]);
    }
  }

  lemma {:induction false} ForgetRemoves(seen: set<string>, drop: seq<string>, k: string)
    ensures k in Forget(seen, drop) <==> k in seen && k !in drop
  {
    if drop != [] {
      var n := |drop| - 1;
      ForgetRemoves(seen, drop[..n], k);
      assert drop == drop[..n] + [drop[n]];
    }
  }

  /** Forgetting a prefix of the order leaves exactly the keys of the rest. */
  lemma ForgetPrefix(seen: set<string>, order: seq<string>, cut: nat)
    requires SameKeys(seen, order) && cut <= |order|
    ensures SameKeys(Forget(seen, order[..cut]), order[cut..])
  {
    forall k ensures k in Forget(seen, order[..cut]) <==> k in order[cut..] {
      ForgetRemoves(seen, order[..cut], k);
      KeyInOnePart(order, cut, k);
    }
  }

  lemma KeyInOnePart(order: seq<string>, cut: nat, k: string)
    requires Distinct(order) && cut <= |order|
    ensures k in order && k !in order[..cut] <==> k in order[cut..]
  {
    assert order == order[..cut] + order[cut..];
  }

  lemma TrimKeepsInv(f: Feed)
    requires Inv(f)
    ensures Inv(Trim(f)) && |Trim(f).order| <= MAX_REMEMBERED
    ensures Trim(f).printed == f.printed
  {
    if |f.order| > MAX_REMEMBERED {
      ForgetPrefix(f.seen, f.order, |f.order| - KEPT);
    }
  }

  /** Beyond 5000 keys the latest 2500 are kept, and up to that many all are. */
  lemma TrimKeepsLatest(f: Feed)
    ensures Trim(f).order == if |f.order| > 5000 then f.order[|f.order| - 2500..] else f.order
  {
  }

  /** What holds at the start of every poll, over any run of polls. */
  lemma {:induction false} FollowKeepsInv(polls: seq<seq<Row>>)
    ensures var f := Polls(EMPTY, polls);
            Inv(f) && |f.order| <= 5000
  {
    if polls != [] {
      var n := |polls| - 1;
      FollowKeepsInv(polls[..n]);
      TakeRowsKeepInv(Polls(EMPTY, polls[..n]), polls[n]);
      TrimKeepsInv(TakeRows(Polls(EMPTY, polls[..n]), polls[n]));
    }
  }

  /** The printed output of a run: repeats of a key are more than 2500 rows apart. */
  lemma RepeatsAreFarApart(polls: seq<seq<Row>>, i: nat, j: nat)
    requires i < j < |Polls(EMPTY, polls).printed|
    requires Polls(EMPTY, polls).printed[i].key == Polls(EMPTY, polls).printed[j].key
    ensures j - i > 2500
  {
    FollowKeepsInv(polls);
  }

  // ---------------------------------------------------------------- nothing is lost

  predicate Printed(f: Feed, key: string) {
    exists i :: 0 <= i < |f.printed| && f.printed[i].key == key
  }

  predicate Polled(rows: seq<Row>, key: string) {
    exists i :: 0 <= i < |rows| && rows[i].key == key
  }

  lemma RememberedIsPrinted(f: Feed, key: string)
    requires Inv(f) && key in f.seen
    ensures Printed(f, key)
  {
    var i :| 0 <= i < |f.order| && f.order[i] == key;
    assert f.printed[|f.printed| - |f.order| + i].key == key;
  }

  lemma TakeRowPrints(f: Feed, row: Row, key: string)
    requires Inv(f)
    ensures Printed(TakeRow(f, row), key) <==> Printed(f, key) || key == row.key
  {
    if row.key in f.seen {
      RememberedIsPrinted(f, row.key);
    } else {
      var all := f.printed + [row];
      if Printed(f, key) {
        var i :| 0 <= i < |f.printed| && f.printed[i].key == key;
        assert all[i].key == key;
      }
      assert all[|f.printed|].key == row.key;
    }
  }

  lemma {:induction false} TakeRowsPrint(f: Feed, rows: seq<Row>, key: string)
    requires Inv(f)
    ensures Printed(TakeRows(f, rows), key) <==> Printed(f, key) || Polled(rows, key)
  {
    if rows != [] {
      var n := |rows| - 1;
      TakeRowsKeepInv(f, rows[..n]);
      TakeRowsPrint(f, rows[..n], key);
      TakeRowPrints(TakeRows(f, rows[..n]), rows[n], key);
      PolledOneMore(rows, key);
    }
  }

  lemma PolledOneMore(rows: seq<Row>, key: string)
    requires rows != []
    ensures Polled(rows, key) <==> Polled(rows[..|rows| - 1], key) || rows[|rows| - 1].key == key
  {
    var n := |rows| - 1;
    if Polled(rows, key) {
      var i :| 0 <= i < |rows| && rows[i].key == key;
      assert i == n || rows[..n][i].key == key;
    }
    if Polled(rows[..n], key) {
      var i :| 0 <= i < n && rows[..n][i].key == key;
      assert rows[i].key == key;
    }
  }

  /** Over any run, the keys that were printed are exactly the keys some poll returned. */
  lemma {:induction false} EveryPolledKeyIsPrinted(polls: seq<seq<Row>>, key: string)
    ensures Printed(Polls(EMPTY, polls), key) <==> exists p :: 0 <= p < |polls| && Polled(polls[p], key)
  {
    if polls != [] {
      var n := |polls| - 1;
      var front := polls[..n];
      EveryPolledKeyIsPrinted(front, key);
      FollowKeepsInv(front);
      TakeRowsPrint(Polls(EMPTY, front), polls[n], key);
      TakeRowsKeepInv(Polls(EMPTY, front), polls[n]);
      TrimKeepsInv(TakeRows(Polls(EMPTY, front), polls[n]));
      PollsSplit(polls, key);
    }
  }

  lemma PollsSplit(polls: seq<seq<Row>>, key: string)
    requires polls != []
    ensures var n := |polls| - 1;
            (exists p :: 0 <= p < |polls| && Polled(polls[p], key))
            <==> (exists p :: 0 <= p < n && Polled(polls[..n][p], key)) || Polled(polls[n], key)
  {
    var n := |polls| - 1;
    if p :| 0 <= p < |polls| && Polled(polls[p], key) {
      assert p == n || polls[..n][p] == polls[p];
    }
    if p :| 0 <= p < n && Polled(polls[..n][p], key) {
      assert polls[p] == polls[..n][p];
    }
  }

  // ---------------------------------------------------------------- exact while the memory suffices

  /** Each key's first row, in order: what unbounded memory would print. */
  function FirstRows(rows: seq<Row>): seq<Row> {
    if rows == [] then []
    else
      var front := FirstRows(rows[..|rows| - 1]);
      if Polled(front, rows[|rows| - 1].key) then front else front + [rows[|rows| - 1]]
  }

  function AllRows(polls: seq<seq<Row>>): seq<Row> {
    if polls == [] then [] else AllRows(polls[..|polls| - 1]) + polls[|polls| - 1]
  }

  /** Nothing was forgotten and exactly the first rows were printed. */
  ghost predicate Exact(f: Feed, all: seq<Row>) {
    Inv(f) && |f.order| == |f.printed| && f.printed == FirstRows(all)
  }

  lemma UnforgottenIsSeen(f: Feed, key: string)
    requires Inv(f) && |f.order| == |f.printed|
    ensures key in f.seen <==> Polled(f.printed, key)
  {
    if key in f.seen {
      RememberedIsPrinted(f, key);
    }
    if Polled(f.printed, key) {
      var i :| 0 <= i < |f.printed| && f.printed[i].key == key;
      assert f.order[i] == key;
    }
  }

  lemma {:induction false} TakeRowsExact(f: Feed, all: seq<Row>, rows: seq<Row>)
    requires Exact(f, all)
    ensures Exact(TakeRows(f, rows), all + rows)
  {
    if rows == [] {
      assert all + rows == all;
    } else {
      var n := |rows| - 1;
      TakeRowsExact(f, all, rows[..n]);
      var g := TakeRows(f, rows[..n]);
      TakeRowKeepsInv(g, rows[n]);
      UnforgottenIsSeen(g, rows[n].key);
      assert (all + rows)[..|all + rows| - 1] == all + rows[..n];
    }
  }

  lemma {:induction false} FirstRowsGrow(all: seq<Row>, rows: seq<Row>)
    ensures |FirstRows(all)| <= |FirstRows(all + rows)|
  {
    if rows == [] {
      assert all + rows == all;
    } else {
      FirstRowsGrow(all, rows[..|rows| - 1]);
      assert (all + rows)[..|all + rows| - 1] == all + rows[..|rows| - 1];
    }
  }

  /** Up to 5000 distinct keys, a run prints exactly the first row of each key and nothing else. */
  lemma {:induction false} FollowIsExact(polls: seq<seq<Row>>)
    requires |FirstRows(AllRows(polls))| <= 5000
    ensures Exact(Polls(EMPTY, polls), AllRows(polls))
  {
    if polls != [] {
      var n := |polls| - 1;
      FirstRowsGrow(AllRows(polls[..n]), polls[n]);
      FollowIsExact(polls[..n]);
      TakeRowsExact(Polls(EMPTY, polls[..n]), AllRows(polls[..n]), polls[n]);
    }
  }

  // ---------------------------------------------------------------- the loop

  /** What one request to the proxy comes back with: its rows, or the exit code it ends the command with. */
  datatype Answer = Rows(rows: seq<Row>) | Failed(code: int)

  /** The polls before the first failure. */
  function Delivered(answers: seq<Answer>): seq<seq<Row>> {
    if answers == [] || answers[0].Failed? then [] else [answers[0].rows] + Delivered(answers[1..])
  }

  /** The command exits with the code of the first request that fails, and with 0 when none does. */
  lemma {:induction false} ExitsWithFirstFailure(answers: seq<Answer>, k: nat)
    requires k <= |answers| && (forall i :: 0 <= i < k ==> answers[i].Rows?) && (k < |answers| ==> answers[k].Failed?)
    ensures ExitCode(answers) == if k < |answers| then answers[k].code else 0
    ensures |Delivered(answers)| == k && forall i :: 0 <= i < k ==> Delivered(answers)[i] == answers[i].rows
  {
    if k > 0 {
      var rest := answers[1..];
      assert forall i :: 0 <= i < k - 1 ==> rest[i] == answers[i + 1];
      ExitsWithFirstFailure(rest, k - 1);
    }
  }

  class LogFollower {
    var seen: set<string>
    var seenOrder: seq<string>
    var stdout: seq<Row>

    function State(): Feed
      reads this
    {
      Feed(seen, seenOrder, stdout)
    }

    constructor ()
      ensures State() == EMPTY
    {
      seen, seenOrder, stdout := {}, [], [];
    }

    method PrintEntries(entries: seq<Row>)
      modifies this
      ensures State() == TakeRows(old(State()), entries)
    {
      var i := 0;
      while i < |entries|
        invariant 0 <= i <= |entries|
        invariant State() == TakeRows(old(State()), entries[..i])
      {
        var row := entries[i];
        assert entries[..i + 1][..i] == entries[..i];
        i := i + 1;
        if row.key in seen {
          continue;
        }
        seen := seen + {row.key};
        seenOrder := seenOrder + [row.key];
        stdout := stdout + [row];
      }
      assert entries[..i] == entries;
    }

    method TrimMemory()
      modifies this
      ensures State() == Trim(old(State()))
    {
      if |seenOrder| > MAX_REMEMBERED {
        var drop := seenOrder[..|seenOrder| - KEPT];
        seenOrder := seenOrder[|seenOrder| - KEPT..];
        ghost var kept, out := seenOrder, stdout;
        var i := 0;
        while i < |drop|
          invariant 0 <= i <= |drop|
          invariant seen == Forget(old(seen), drop[..i])
          invariant seenOrder == kept && stdout == out
        {
          assert drop[..i + 1][..i] == drop[..i] && drop[..i + 1][i] == drop[i];
          seen := seen - {drop[i]};
          i := i + 1;
        }
        assert drop[..i] == drop;
      }
    }

    /** Polls until a request fails or, the answers used up, the wait is cancelled. */
    method Follow(answers: seq<Answer>) returns (code: int)
      requires State() == EMPTY
      modifies this
      ensures State() == Polls(EMPTY, Delivered(answers))
      ensures code == ExitCode(answers)
    {
      code := 0;
      var i := 0;
      ghost var done: seq<seq<Row>> := [];
      while i < |answers|
        invariant 0 <= i <= |answers| && |done| == i
        invariant Delivered(answers) == done + Delivered(answers[i..]) && ExitCode(answers) == ExitCode(answers[i..])
        invariant State() == Polls(EMPTY, done)
      {
        DeliveredAt(answers, done, i);
        if answers[i].Failed? {
          code := answers[i].code;
          return;
        }
        PrintEntries(answers[i].rows);
        TrimMemory();
        assert (done + [answers[i].rows])[..i] == done;
        done := done + [answers[i].rows];
        i := i + 1;
      }
      assert done + [] == done;
    }
  }

  function ExitCode(answers: seq<Answer>): int {
    if answers == [] then 0 else if answers[0].Failed? then answers[0].code else ExitCode(answers[1..])
  }

  lemma DeliveredAt(answers: seq<Answer>, done: seq<seq<Row>>, i: nat)
    requires i < |answers|
    ensures answers[i].Failed? ==> done + Delivered(answers[i..]) == done && ExitCode(answers[i..]) == answers[i].code
    ensures answers[i].Rows? ==> done + Delivered(answers[i..]) == done + [answers[i].rows] + Delivered(answers[i + 1..])
    ensures answers[i].Rows? ==> ExitCode(answers[i..]) == ExitCode(answers[i + 1..])
  {
    assert answers[i..][1..] == answers[i + 1..];
  }
}
