/**
  What the purchase menu guarantees about the calls it makes into the
  vending machine, whatever those calls do and whatever is entered.
 */
module MenuSafety {
  import opened Wrappers
  import opened Text
  import opened Catalog
  import opened VendingMachine
  import opened ProductSelection
  import opened Deposit
  import opened Dispense
  import opened PurchaseMenu

  /** A call the menu may make in the state it is made in. */
  predicate Allowed(c: Call) {
    match c.action
    case DepositMoney(d) => d in Denominations
    case GiveProduct(id) => Select(id, c.before.inventory, c.before.balance) == Purchase(id)
    case DisplayProducts => true
    case FinishTransaction => true
  }

  predicate AllAllowed(calls: seq<Call>) {
    forall i :: 0 <= i < |calls| ==> Allowed(calls[i])
  }

  predicate NoFinish(calls: seq<Call>) {
    forall i :: 0 <= i < |calls| ==> calls[i].action != FinishTransaction
  }

  /** FinishTransaction is called once, as the last call, exactly when the session finished. */
  predicate FinishOnlyLast(calls: seq<Call>, finished: bool) {
    && (finished ==> |calls| > 0)
    && forall i :: 0 <= i < |calls| ==> (calls[i].action == FinishTransaction <==> finished && i == |calls| - 1)
  }

  lemma AllAllowedAppend(a: seq<Call>, b: seq<Call>)
    requires AllAllowed(a) && AllAllowed(b)
    ensures AllAllowed(a + b)
  {
    forall i | 0 <= i < |a + b|
      ensures Allowed((a + b)[i])
    {
      if i >= |a| {
        assert (a + b)[i] == b[i - |a|];
      }
    }
  }

  lemma FinishOnlyLastAppend(a: seq<Call>, b: seq<Call>, finished: bool)
    requires NoFinish(a) && FinishOnlyLast(b, finished)
    ensures FinishOnlyLast(a + b, finished)
  {
    forall i | 0 <= i < |a + b|
      ensures (a + b)[i].action == FinishTransaction <==> finished && i == |a + b| - 1
    {
      if i >= |a| {
        assert (a + b)[i] == b[i - |a|];
      } else {
        assert (a + b)[i] == a[i];
      }
    }
  }

  /** The lines of `lines` read by the time `rest` is left. */
  function Read(lines: seq<string>, rest: seq<string>): seq<string>
    requires |rest| <= |lines|
  {
    lines[..|lines| - |rest|]
  }

  /** Reference: the bill values selected by `lines`, in order. */
  function Inserted(lines: seq<string>): seq<int> {
    if lines == [] then []
    else
      (match ParseMoney(lines[0]) case Insert(d) => [d] case _ => [])
      + Inserted(lines[1..])
  }

  /** The amounts of the DepositMoney calls among `calls`, in order. */
  function Deposits(calls: seq<Call>): seq<int> {
    if calls == [] then []
    else
      (match calls[0].action case DepositMoney(d) => [d] case _ => [])
      + Deposits(calls[1..])
  }

  /**
    The deposit menu calls only DepositMoney, always with an accepted bill
    value, and the machine changes only through those calls.
   */
  lemma {:induction false} GetMoneyCalls(lines: seq<string>, fx: Effects, m: State)
    ensures var v := GetMoney(lines, fx, m);
            && Chain(fx, m, v.calls, v.machine)
            && AllAllowed(v.calls)
            && (forall i :: 0 <= i < |v.calls| ==> v.calls[i].action.DepositMoney?)
            && NoFinish(v.calls)
    decreases |lines|
  {
    if lines != [] {
      match ParseMoney(lines[0])
      case Insert(d) =>
        var c := Call(m, DepositMoney(d));
        var w := GetMoney(lines[1..], fx, Apply(fx, c));
        GetMoneyCalls(lines[1..], fx, Apply(fx, c));
        assert GetMoney(lines, fx, m).calls == [c] + w.calls;
      case Leave =>
      case Reject =>
        GetMoneyCalls(lines[1..], fx, m);
    }
  }

  lemma InsertedCons(line: string, tail: seq<string>)
    ensures Inserted([line] + tail) ==
            (if ParseMoney(line).Insert? then [ParseMoney(line).amount] else []) + Inserted(tail)
  {
    assert ([line] + tail)[1..] == tail;
  }

  lemma DepositsCons(c: Call, tail: seq<Call>)
    ensures Deposits([c] + tail) ==
            (if c.action.DepositMoney? then [c.action.amount] else []) + Deposits(tail)
  {
    assert ([c] + tail)[1..] == tail;
  }

  /** One pass of the deposit menu on a line that is not a quit line. */
  lemma GetMoneyStep(lines: seq<string>, fx: Effects, m: State)
    requires lines != [] && !ParseMoney(lines[0]).Leave?
    ensures var p := ParseMoney(lines[0]);
            var m' := if p.Insert? then Apply(fx, Call(m, DepositMoney(p.amount))) else m;
            var w := GetMoney(lines[1..], fx, m');
            GetMoney(lines, fx, m) ==
              if p.Insert? then w.(calls := [Call(m, DepositMoney(p.amount))] + w.calls) else w
  {
  }

  /** The deposits made are the bill values selected by the lines read, in order. */
  lemma {:induction false} GetMoneyDeposits(lines: seq<string>, fx: Effects, m: State)
    ensures var v := GetMoney(lines, fx, m);
            Deposits(v.calls) == Inserted(Read(lines, v.rest))
    decreases |lines|
  {
    if lines != [] {
      var v := GetMoney(lines, fx, m);
      var p := ParseMoney(lines[0]);
      if p.Leave? {
        assert v == Visit(m, [], lines[1..], true);
        assert Read(lines, v.rest) == [lines[0]] + [];
        InsertedCons(lines[0], []);
      } else {
        var m' := if p.Insert? then Apply(fx, Call(m, DepositMoney(p.amount))) else m;
        var w := GetMoney(lines[1..], fx, m');
        GetMoneyStep(lines, fx, m);
        GetMoneyDeposits(lines[1..], fx, m');
        var tail := Read(lines[1..], w.rest);
        assert Read(lines, v.rest) == [lines[0]] + tail;
        InsertedCons(lines[0], tail);
        if p.Insert? {
          DepositsCons(Call(m, DepositMoney(p.amount)), w.calls);
        }
      }
    }
  }

  /** The lines read, of which exactly the last is a quit line when the menu returned. */
  predicate QuitOnlyLast(read: seq<string>, returned: bool) {
    forall i :: 0 <= i < |read| ==> (ParseMoney(read[i]) == Leave <==> returned && i == |read| - 1)
  }

  lemma QuitOnlyLastCons(head: string, tail: seq<string>, returned: bool)
    requires ParseMoney(head) != Leave
    requires returned ==> |tail| >= 1
    requires QuitOnlyLast(tail, returned)
    ensures QuitOnlyLast([head] + tail, returned)
  {
    var read := [head] + tail;
    forall i | 0 <= i < |read|
      ensures ParseMoney(read[i]) == Leave <==> returned && i == |read| - 1
    {
      if i > 0 {
        assert read[i] == tail[i - 1];
      }
    }
  }

  /** The deposit menu returns exactly at the first "q"/"Q" line, having read nothing after it. */
  lemma {:induction false} GetMoneyStopsAtQuit(lines: seq<string>, fx: Effects, m: State)
    ensures var v := GetMoney(lines, fx, m);
            QuitOnlyLast(Read(lines, v.rest), v.returned)
    decreases |lines|
  {
    if lines != [] {
      var v := GetMoney(lines, fx, m);
      var p := ParseMoney(lines[0]);
      if p.Leave? {
        assert Read(lines, v.rest) == [lines[0]];
      } else {
        var m' := if p.Insert? then Apply(fx, Call(m, DepositMoney(p.amount))) else m;
        var w := GetMoney(lines[1..], fx, m');
        GetMoneyStep(lines, fx, m);
        GetMoneyStopsAtQuit(lines[1..], fx, m');
        var tail := Read(lines[1..], w.rest);
        assert Read(lines, v.rest) == [lines[0]] + tail;
        QuitOnlyLastCons(lines[0], tail, v.returned);
      }
    }
  }

  /**
    The product menu shows the products any number of times and then makes
    at most one GiveProduct call, last, and only when the slot check, stock
    check and funds check pass in the state at that moment; the machine
    changes only through those calls.
   */
  lemma {:induction false} GetProductCalls(lines: seq<string>, fx: Effects, m: State)
    ensures var v := GetProduct(lines, fx, m);
            && Chain(fx, m, v.calls, v.machine)
            && AllAllowed(v.calls)
            && NoFinish(v.calls)
            && (forall i :: 0 <= i < |v.calls| ==> v.calls[i].action == DisplayProducts || v.calls[i].action.GiveProduct?)
            && (forall i :: 0 <= i < |v.calls| - 1 ==> v.calls[i].action == DisplayProducts)
            && (forall i :: 0 <= i < |v.calls| && v.calls[i].action.GiveProduct? ==> v.returned && i == |v.calls| - 1)
    decreases |lines|
  {
    if lines != [] {
      var v := GetProduct(lines, fx, m);
      if lines[0] == "1" {
        var c := Call(m, DisplayProducts);
        var w := GetProduct(lines[1..], fx, Apply(fx, c));
        GetProductShowStep(lines, fx, m);
        GetProductCalls(lines[1..], fx, Apply(fx, c));
        assert v.calls[1..] == w.calls;
      } else {
        GetProductLastStep(lines, fx, m);
        if |v.calls| == 1 {
          assert Chain(fx, Apply(fx, v.calls[0]), [], v.machine);
        }
      }
    }
  }

  /** Every line read is "1" except the last one when the product menu returned. */
  predicate OnesUntilLast(read: seq<string>, returned: bool) {
    forall i :: 0 <= i < |read| ==> (read[i] == "1" <==> !(returned && i == |read| - 1))
  }

  /** Every GiveProduct call names the last line read. */
  predicate GivesLastRead(calls: seq<Call>, read: seq<string>) {
    forall i :: 0 <= i < |calls| && calls[i].action.GiveProduct? ==>
      |read| > 0 && calls[i].action.slotId == read[|read| - 1]
  }

  lemma OnesUntilLastCons(tail: seq<string>, returned: bool)
    requires returned ==> |tail| >= 1
    requires OnesUntilLast(tail, returned)
    ensures OnesUntilLast(["1"] + tail, returned)
  {
    var read := ["1"] + tail;
    forall i | 0 <= i < |read|
      ensures read[i] == "1" <==> !(returned && i == |read| - 1)
    {
      if i > 0 {
        assert read[i] == tail[i - 1];
      }
    }
  }

  lemma GivesLastReadCons(c: Call, calls: seq<Call>, tail: seq<string>)
    requires !c.action.GiveProduct?
    requires GivesLastRead(calls, tail)
    ensures GivesLastRead([c] + calls, ["1"] + tail)
  {
    var all := [c] + calls;
    forall i | 0 <= i < |all| && all[i].action.GiveProduct?
      ensures all[i].action.slotId == (["1"] + tail)[|tail|]
    {
      assert all[i] == calls[i - 1];
    }
  }

  /**
    The product menu reads "1" lines until a different line, and acts on that
    one: a GiveProduct call names exactly that line.
   */
  lemma {:induction false} GetProductReads(lines: seq<string>, fx: Effects, m: State)
    ensures var v := GetProduct(lines, fx, m);
            var read := Read(lines, v.rest);
            OnesUntilLast(read, v.returned) && GivesLastRead(v.calls, read)
    decreases |lines|
  {
    if lines != [] {
      var v := GetProduct(lines, fx, m);
      var read := Read(lines, v.rest);
      if lines[0] == "1" {
        var c := Call(m, DisplayProducts);
        var w := GetProduct(lines[1..], fx, Apply(fx, c));
        GetProductShowStep(lines, fx, m);
        GetProductReads(lines[1..], fx, Apply(fx, c));
        var tail := Read(lines[1..], w.rest);
        assert read == ["1"] + tail;
        OnesUntilLastCons(tail, v.returned);
        GivesLastReadCons(c, w.calls, tail);
      } else {
        GetProductLastStep(lines, fx, m);
        assert read == [lines[0]];
      }
    }
  }

  /**
    When the product menu returned without a GiveProduct call, the last line
    read did not pass the checks in the state it was checked in.
   */
  predicate BoughtIfPassed(v: Visit, read: seq<string>) {
    v.returned && |read| > 0 ==>
      || (|v.calls| > 0 && v.calls[|v.calls| - 1].action.GiveProduct?)
      || Select(read[|read| - 1], v.machine.inventory, v.machine.balance) != Purchase(read[|read| - 1])
  }

  /** A line that passes every check is bought: the product menu then calls GiveProduct. */
  lemma {:induction false} GetProductBuys(lines: seq<string>, fx: Effects, m: State)
    ensures var v := GetProduct(lines, fx, m);
            BoughtIfPassed(v, Read(lines, v.rest))
    decreases |lines|
  {
    if lines != [] {
      var v := GetProduct(lines, fx, m);
      var read := Read(lines, v.rest);
      if lines[0] == "1" {
        var c := Call(m, DisplayProducts);
        var w := GetProduct(lines[1..], fx, Apply(fx, c));
        GetProductShowStep(lines, fx, m);
        GetProductBuys(lines[1..], fx, Apply(fx, c));
        var tail := Read(lines[1..], w.rest);
        assert read == ["1"] + tail;
        if v.returned {
          assert read[|read| - 1] == tail[|tail| - 1];
          if |w.calls| > 0 {
            assert v.calls[|v.calls| - 1] == w.calls[|w.calls| - 1];
          }
        }
      } else {
        GetProductLastStep(lines, fx, m);
        assert read == [lines[0]];
      }
    }
  }

  /** The number of DisplayProducts calls among `calls`. */
  function Shows(calls: seq<Call>): nat {
    if calls == [] then 0
    else (if calls[0].action == DisplayProducts then 1 else 0) + Shows(calls[1..])
  }

  /** Reference: the number of "1" lines among `read`. */
  function Ones(read: seq<string>): nat {
    if read == [] then 0
    else (if read[0] == "1" then 1 else 0) + Ones(read[1..])
  }

  lemma ShowsCons(c: Call, tail: seq<Call>)
    ensures Shows([c] + tail) == (if c.action == DisplayProducts then 1 else 0) + Shows(tail)
  {
    assert ([c] + tail)[1..] == tail;
  }

  lemma OnesCons(line: string, tail: seq<string>)
    ensures Ones([line] + tail) == (if line == "1" then 1 else 0) + Ones(tail)
  {
    assert ([line] + tail)[1..] == tail;
  }

  /** One pass of the product menu on a "1" line: show the products, then carry on. */
  lemma GetProductShowStep(lines: seq<string>, fx: Effects, m: State)
    requires lines != [] && lines[0] == "1"
    ensures var c := Call(m, DisplayProducts);
            var w := GetProduct(lines[1..], fx, Apply(fx, c));
            GetProduct(lines, fx, m) == w.(calls := [c] + w.calls)
  {
  }

  /** One pass of the product menu on any other line: at most a GiveProduct call, then return. */
  lemma GetProductLastStep(lines: seq<string>, fx: Effects, m: State)
    requires lines != [] && lines[0] != "1"
    ensures var v := GetProduct(lines, fx, m);
            && v.returned && v.rest == lines[1..] && |v.calls| <= 1
            && (|v.calls| == 1 ==> v.calls[0] == Call(m, GiveProduct(lines[0])) && v.machine == fx.giveProduct(m, lines[0]))
            && (|v.calls| == 0 ==> v.machine == m && Select(lines[0], m.inventory, m.balance) != Purchase(lines[0]))
  {
  }

  /** The product menu shows the products exactly once for each "1" line it reads. */
  lemma {:induction false} GetProductShows(lines: seq<string>, fx: Effects, m: State)
    ensures var v := GetProduct(lines, fx, m);
            Shows(v.calls) == Ones(Read(lines, v.rest))
    decreases |lines|
  {
    if lines != [] {
      var v := GetProduct(lines, fx, m);
      var read := Read(lines, v.rest);
      if lines[0] == "1" {
        var c := Call(m, DisplayProducts);
        var w := GetProduct(lines[1..], fx, Apply(fx, c));
        GetProductShowStep(lines, fx, m);
        GetProductShows(lines[1..], fx, Apply(fx, c));
        var tail := Read(lines[1..], w.rest);
        assert read == ["1"] + tail;
        ShowsCons(c, w.calls);
        OnesCons("1", tail);
      } else {
        GetProductLastStep(lines, fx, m);
        assert read == [lines[0]] + [];
        OnesCons(lines[0], []);
        if |v.calls| == 1 {
          assert v.calls == [v.calls[0]] + [];
          ShowsCons(v.calls[0], []);
        }
      }
    }
  }

  /** The sub-menu visit and remaining session the purchase menu runs for a line that opens a sub-menu. */
  function SubVisit(lines: seq<string>, fx: Effects, m: State): Visit
    requires lines != []
  {
    if lines[0] == "1" then GetMoney(lines[1..], fx, m) else GetProduct(lines[1..], fx, m)
  }

  lemma {:induction false} SubVisitCalls(lines: seq<string>, fx: Effects, m: State)
    requires lines != [] && (lines[0] == "1" || lines[0] == "2")
    ensures var v := SubVisit(lines, fx, m);
            && Chain(fx, m, v.calls, v.machine)
            && AllAllowed(v.calls)
            && NoFinish(v.calls)
            && Suffix(v.rest, lines[1..])
            && (v.returned ==> |v.rest| < |lines| - 1)
            && (!v.returned ==> v.rest == [])
  {
    if lines[0] == "1" {
      GetMoneyCalls(lines[1..], fx, m);
    } else {
      GetProductCalls(lines[1..], fx, m);
    }
  }

  /** A sub-menu line at the purchase menu: the session is the visit followed by the rest of the session. */
  lemma DisplaySubStep(lines: seq<string>, fx: Effects, m: State)
    requires lines != [] && (lines[0] == "1" || lines[0] == "2")
    ensures var v := SubVisit(lines, fx, m);
            && (v.returned ==>
                  var t := Display(v.rest, fx, v.machine);
                  Display(lines, fx, m) == Session(t.machine, v.calls + t.calls, t.rest, t.exit))
            && (!v.returned ==> Display(lines, fx, m) == Session(v.machine, v.calls, [], OutOfInput))
  {
    if lines[0] == "1" {
      DisplayFeedsMoney(lines, fx, m);
    } else {
      DisplaySelectsProduct(lines, fx, m);
    }
  }

  /** Every call the purchase menu makes, in any session, is one it may make in that state. */
  lemma {:induction false} DisplayAllowed(lines: seq<string>, fx: Effects, m: State)
    ensures AllAllowed(Display(lines, fx, m).calls)
    decreases |lines|
  {
    if lines != [] {
      var choice := ParseMenu(lines[0]);
      if choice == FeedMoney || choice == SelectProduct {
        var v := SubVisit(lines, fx, m);
        SubVisitCalls(lines, fx, m);
        DisplaySubStep(lines, fx, m);
        if v.returned {
          DisplayAllowed(v.rest, fx, v.machine);
          AllAllowedAppend(v.calls, Display(v.rest, fx, v.machine).calls);
        }
      } else if choice == InvalidChoice {
        DisplayAllowed(lines[1..], fx, m);
      }
    }
  }

  /** FinishTransaction is called at most once per session, as its last call, and only when "3" ends it. */
  lemma {:induction false} DisplayFinishLast(lines: seq<string>, fx: Effects, m: State)
    ensures var s := Display(lines, fx, m);
            FinishOnlyLast(s.calls, s.exit.Finished?)
    decreases |lines|
  {
    if lines != [] {
      var choice := ParseMenu(lines[0]);
      if choice == FeedMoney || choice == SelectProduct {
        var v := SubVisit(lines, fx, m);
        SubVisitCalls(lines, fx, m);
        DisplaySubStep(lines, fx, m);
        if v.returned {
          var s := Display(v.rest, fx, v.machine);
          DisplayFinishLast(v.rest, fx, v.machine);
          FinishOnlyLastAppend(v.calls, s.calls, s.exit.Finished?);
        }
      } else if choice == InvalidChoice {
        DisplayFinishLast(lines[1..], fx, m);
      }
    }
  }

  /**
    The machine changes only through the menu's calls; a finished session
    then shows the messages for the products listed after FinishTransaction
    and leaves that list empty.
   */
  ghost predicate History(fx: Effects, m: State, s: Session) {
    if s.exit.Finished? then
      && |s.calls| > 0
      && var done := Apply(fx, s.calls[|s.calls| - 1]);
      && Chain(fx, m, s.calls, done)
      && s.machine == done.(purchased := [])
      && s.exit.messages == DispenseLines(done.purchased)
    else
      Chain(fx, m, s.calls, s.machine)
  }

  lemma {:induction false} DisplayHistory(lines: seq<string>, fx: Effects, m: State)
    ensures History(fx, m, Display(lines, fx, m))
    decreases |lines|
  {
    var s := Display(lines, fx, m);
    if lines != [] {
      var choice := ParseMenu(lines[0]);
      if choice == FeedMoney || choice == SelectProduct {
        var v := SubVisit(lines, fx, m);
        SubVisitCalls(lines, fx, m);
        DisplaySubStep(lines, fx, m);
        if v.returned {
          var t := Display(v.rest, fx, v.machine);
          DisplayHistory(v.rest, fx, v.machine);
          if t.exit.Finished? {
            var done := Apply(fx, t.calls[|t.calls| - 1]);
            assert s.calls[|s.calls| - 1] == t.calls[|t.calls| - 1];
            ChainAppend(fx, m, v.calls, v.machine, t.calls, done);
          } else {
            ChainAppend(fx, m, v.calls, v.machine, t.calls, t.machine);
          }
        }
      } else if choice == Finish {
        DisplayFinishFirst(lines, fx, m);
        assert Chain(fx, Apply(fx, s.calls[0]), [], Apply(fx, s.calls[0]));
      } else if choice == InvalidChoice {
        DisplayHistory(lines[1..], fx, m);
      }
    }
  }

  /** "q" or "Q" at the purchase menu leaves at once: no call, the machine (balance, purchased list) untouched. */
  lemma DisplayQuitFirst(lines: seq<string>, fx: Effects, m: State)
    requires lines != [] && (lines[0] == "q" || lines[0] == "Q")
    ensures Display(lines, fx, m) == Session(m, [], lines[1..], ToMainMenu)
  {
  }

  /** "1" at the purchase menu opens the deposit menu, then carries on from where it returned. */
  lemma DisplayFeedsMoney(lines: seq<string>, fx: Effects, m: State)
    requires lines != [] && lines[0] == "1"
    ensures var v := GetMoney(lines[1..], fx, m);
            var s := Display(lines, fx, m);
            && (v.returned ==>
                  var t := Display(v.rest, fx, v.machine);
                  s == Session(t.machine, v.calls + t.calls, t.rest, t.exit))
            && (!v.returned ==> s == Session(v.machine, v.calls, [], OutOfInput))
  {
  }

  /** "2" at the purchase menu opens the product menu, then carries on from where it returned. */
  lemma DisplaySelectsProduct(lines: seq<string>, fx: Effects, m: State)
    requires lines != [] && lines[0] == "2"
    ensures var v := GetProduct(lines[1..], fx, m);
            var s := Display(lines, fx, m);
            && (v.returned ==>
                  var t := Display(v.rest, fx, v.machine);
                  s == Session(t.machine, v.calls + t.calls, t.rest, t.exit))
            && (!v.returned ==> s == Session(v.machine, v.calls, [], OutOfInput))
  {
  }

  /** Any other line at the purchase menu is ignored: no call, and the menu asks again. */
  lemma DisplayInvalidReprompts(lines: seq<string>, fx: Effects, m: State)
    requires lines != [] && lines[0] !in {"1", "2", "3", "q", "Q"}
    ensures Display(lines, fx, m) == Display(lines[1..], fx, m)
  {
  }

  /**
    "3" at the purchase menu calls FinishTransaction once, then shows one
    message line per product the machine then lists as purchased, in order,
    and empties that list.
   */
  lemma DisplayFinishFirst(lines: seq<string>, fx: Effects, m: State)
    requires lines != [] && lines[0] == "3"
    ensures var s := Display(lines, fx, m);
            var done := fx.finishTransaction(m);
            && s.calls == [Call(m, FinishTransaction)]
            && s.exit == Finished(DispenseLines(done.purchased))
            && s.machine == State(done.inventory, done.balance, [])
  {
  }

  /** A session that quits to the main menu never called FinishTransaction. */
  lemma QuitNeverFinishes(lines: seq<string>, fx: Effects, m: State)
    ensures var s := Display(lines, fx, m);
            s.exit == ToMainMenu ==> forall i :: 0 <= i < |s.calls| ==> s.calls[i].action != FinishTransaction
  {
    DisplayFinishLast(lines, fx, m);
  }

  /**
    Every GiveProduct call of a session names an existing, in-stock slot whose
    price the balance covers at that moment, and never the slot "1".
   */
  lemma GiveProductValidated(lines: seq<string>, fx: Effects, m: State)
    ensures var s := Display(lines, fx, m);
            forall i :: 0 <= i < |s.calls| && s.calls[i].action.GiveProduct? ==>
              var b := s.calls[i].before;
              var id := s.calls[i].action.slotId;
              CanBuy(b.inventory, id, b.balance) && id != "1"
  {
    var s := Display(lines, fx, m);
    DisplayAllowed(lines, fx, m);
    forall i | 0 <= i < |s.calls| && s.calls[i].action.GiveProduct?
      ensures CanBuy(s.calls[i].before.inventory, s.calls[i].action.slotId, s.calls[i].before.balance)
      ensures s.calls[i].action.slotId != "1"
    {
      assert Allowed(s.calls[i]);
    }
  }

  /** Every DepositMoney call of a session deposits one of the accepted bill values. */
  lemma DepositsAccepted(lines: seq<string>, fx: Effects, m: State)
    ensures var s := Display(lines, fx, m);
            forall i :: 0 <= i < |s.calls| && s.calls[i].action.DepositMoney? ==>
              s.calls[i].action.amount in Denominations
  {
    var s := Display(lines, fx, m);
    DisplayAllowed(lines, fx, m);
    forall i | 0 <= i < |s.calls| && s.calls[i].action.DepositMoney?
      ensures s.calls[i].action.amount in Denominations
    {
      assert Allowed(s.calls[i]);
    }
  }

  const Chips := Product("Chips", 100, "Chip")

  function Stocked(quantity: int): Inventory {
    map["A1" := Slot(Chips, quantity)]
  }

  /**
    The machine behaviour assumed for the scenario below: what its own
    operations are supposed to produce from these four states.
   */
  predicate ChipsMachine(fx: Effects) {
    && fx.depositMoney(State(Stocked(1), 0, []), 1) == State(Stocked(1), 100, [])
    && fx.depositMoney(State(Stocked(1), 100, []), 1) == State(Stocked(1), 200, [])
    && fx.giveProduct(State(Stocked(1), 200, []), "A1") == State(Stocked(0), 100, [Chips])
    && fx.finishTransaction(State(Stocked(0), 100, [Chips])) == State(Stocked(0), 0, [Chips])
  }

  lemma ScenarioDeposits(fx: Effects, rest: seq<string>)
    requires ChipsMachine(fx)
    ensures GetMoney(["1", "1", "q"] + rest, fx, State(Stocked(1), 0, [])) ==
            Visit(State(Stocked(1), 200, []),
                  [Call(State(Stocked(1), 0, []), DepositMoney(1)), Call(State(Stocked(1), 100, []), DepositMoney(1))],
                  rest, true)
  {
    var m0 := State(Stocked(1), 0, []);
    var m1 := State(Stocked(1), 100, []);
    var m2 := State(Stocked(1), 200, []);
    var lines := ["1", "1", "q"] + rest;
    assert (["q"] + rest)[1..] == rest;
    assert GetMoney(["q"] + rest, fx, m2) == Visit(m2, [], rest, true);
    assert (["1", "q"] + rest)[1..] == ["q"] + rest;
    assert GetMoney(["1", "q"] + rest, fx, m1) == Visit(m2, [Call(m1, DepositMoney(1))], rest, true);
    assert lines[1..] == ["1", "q"] + rest;
  }

  lemma ScenarioSoldOut(fx: Effects)
    requires ChipsMachine(fx)
    ensures Display(["2", "A1", "3"], fx, State(Stocked(0), 100, [Chips])) ==
            Session(State(Stocked(0), 0, []), [Call(State(Stocked(0), 100, [Chips]), FinishTransaction)], [],
                    Finished([Some("Crunch Crunch, Yum!")]))
  {
    var m3 := State(Stocked(0), 100, [Chips]);
    assert ToLower("Chip") == "chip";
    assert ["2", "A1", "3"][1..] == ["A1", "3"];
    assert ["A1", "3"][1..] == ["3"];
    assert GetProduct(["A1", "3"], fx, m3) == Visit(m3, [], ["3"], true);
    DisplayFinishFirst(["3"], fx, m3);
  }

  lemma ScenarioPurchase(fx: Effects)
    requires ChipsMachine(fx)
    ensures Display(["2", "A1", "2", "A1", "3"], fx, State(Stocked(1), 200, [])) ==
            Session(State(Stocked(0), 0, []),
                    [Call(State(Stocked(1), 200, []), GiveProduct("A1")), Call(State(Stocked(0), 100, [Chips]), FinishTransaction)],
                    [], Finished([Some("Crunch Crunch, Yum!")]))
  {
    var m2 := State(Stocked(1), 200, []);
    var m3 := State(Stocked(0), 100, [Chips]);
    var lines := ["2", "A1", "2", "A1", "3"];
    assert lines[1..] == ["A1", "2", "A1", "3"];
    assert lines[1..][1..] == ["2", "A1", "3"];
    assert GetProduct(lines[1..], fx, m2) == Visit(m3, [Call(m2, GiveProduct("A1"))], ["2", "A1", "3"], true);
    ScenarioSoldOut(fx);
  }

  /**
    A session on a machine holding one $1.00 bag of chips in slot "A1": two
    $1 bills, a purchase, a second attempt that finds the slot sold out, and
    finishing, which shows the chip message and empties the purchased list.
   */
  lemma ScenarioChipsOnce(fx: Effects)
    requires ChipsMachine(fx)
    ensures var s := Display(["1", "1", "1", "q", "2", "A1", "2", "A1", "3"], fx, State(Stocked(1), 0, []));
            && s.calls == [
                 Call(State(Stocked(1), 0, []), DepositMoney(1)),
                 Call(State(Stocked(1), 100, []), DepositMoney(1)),
                 Call(State(Stocked(1), 200, []), GiveProduct("A1")),
                 Call(State(Stocked(0), 100, [Chips]), FinishTransaction)]
            && s.exit == Finished([Some("Crunch Crunch, Yum!")])
            && s.machine == State(Stocked(0), 0, [])
            && s.rest == []
  {
    var lines := ["1", "1", "1", "q", "2", "A1", "2", "A1", "3"];
    var after := ["2", "A1", "2", "A1", "3"];
    assert lines[1..] == ["1", "1", "q"] + after;
    ScenarioDeposits(fx, after);
    ScenarioPurchase(fx);
  }
}
