/** The reader and card monitor. */
module ReaderMonitor {
  import opened Wrappers

  // The reader and card monitor of the viewer: it turns slot events into reader and card reports for the state
  // machine. What the PKCS #11 module answers while one slot event is handled is an input of the step.

  const CKR_OK: nat := 0
  const CKR_DEVICE_ERROR: nat := 0x30
  const CKR_BUFFER_TOO_SMALL: nat := 0x150
  const EIDV_RV_OK: int := 0
  const EIDV_RV_FAIL: int := -1

  // What the state machine is told.
  datatype Report = ReaderFound(slot: nat) | Inserted(slot: nat) | Removed(slot: nat)

  // C_GetTokenInfo on one of the listed tokens.
  datatype Token = Token(slot: nat, rv: nat)

  /**
  C_GetSlotList for the number and for the list (`memory` is the block that was allocated, of which `filled`
  entries are written on success), C_GetSlotInfo and C_GetTokenInfo on the slot, and the search for cards.
  */
  datatype Answers = Answers(
    countRv: nat, memory: seq<nat>, listRv: nat, filled: nat,
    infoRv: nat, present: bool, tokenRv: nat,
    cardsRv: nat, cardsAgainRv: nat, tokens: seq<Token>)

  predicate Plausible(a: Answers) { a.filled <= |a.memory| }

  // `list` and the number of its entries that are known; `current` is the slot of the card in use, `None` for -1.
  datatype State = State(
    list: Option<seq<nat>>, count: nat, current: Option<nat>, auto: bool, manual: nat, reports: seq<Report>)

  // A slot event without slot stands for the first slot of the list.
  datatype Step = SlotEvent(slot: Option<nat>, a: Answers) | Select(auto: bool, manual: nat)

  const Start := State(None, 0, None, true, 0, [])

  predicate Consistent(s: State) { s.list != None ==> s.count <= |s.list.value| && 0 < |s.list.value| }

  // ---- One event

  function FirstCard(tokens: seq<Token>): Option<nat> {
    if tokens == [] then None
    else if tokens[0].rv == CKR_OK then Some(tokens[0].slot)
    else FirstCard(tokens[1..])
  }

  // eid_vwr_p11_find_eid_card in automatic mode, in which it is called.
  function FindCard(a: Answers): Option<nat> {
    if a.tokens == [] || (a.cardsRv == CKR_BUFFER_TOO_SMALL && a.cardsAgainRv != CKR_OK) then None
    else FirstCard(a.tokens)
  }

  function Tell(s: State, r: Report): State { s.(reports := s.reports + [r]) }

  function Insert(s: State, slot: nat): State { Tell(s, Inserted(slot)).(current := Some(slot)) }

  function Remove(s: State, slot: nat): State { Tell(s, Removed(slot)).(current := None) }

  function Search(s: State, a: Answers): State {
    if FindCard(a) == None then s else Insert(s, FindCard(a).value)
  }

  // eid_vwr_p11_reset_slot_list
  function Reset(s: State, a: Answers): State {
    var cleared := if s.current == None then s else Remove(s, s.current.value);
    var empty := cleared.(list := None, count := 0, auto := true);
    if a.memory == [] || a.countRv != CKR_OK then empty
    else if a.listRv != CKR_OK then empty.(list := Some(a.memory))
    else Search(Tell(empty.(list := Some(a.memory), count := a.filled), ReaderFound(a.memory[0])), a)
  }

  predicate Known(s: State, slot: nat) {
    s.list != None && s.count <= |s.list.value| && slot in s.list.value[..s.count]
  }

  // The slot that an event is about; the first of the list when it names none.
  function SlotOf(s: State, event: Option<nat>): nat
    requires Consistent(s)
  {
    if event != None then event.value else if s.list == None then 0 else s.list.value[0]
  }

  // eid_vwr_p11_check_reader_list
  function Check(s: State, event: Option<nat>, a: Answers): State
    requires Consistent(s)
  {
    if s.list == None then Reset(s, a).(auto := true)
    else
      var slot := SlotOf(s, event);
      if !Known(s, slot) then Reset(s, a)
      else if a.infoRv == CKR_DEVICE_ERROR then Reset(s, a)
      else if a.infoRv != CKR_OK then s
      else if a.present then
        if a.tokenRv != CKR_OK then s
        else if s.auto then if s.current == None then Insert(s, slot) else s
        else if s.manual != slot then s
        else
          var freed := if s.current != None && s.current.value != slot then Remove(s, s.current.value) else s;
          if freed.current == None then Insert(freed, slot) else freed
      else if s.auto then
        var freed := if s.current == Some(slot) then Remove(s, slot) else s;
        if freed.current == None then Search(freed, a) else freed
      else if s.manual == slot && s.current != None then Remove(s, slot)
      else s
  }

  // What eid_vwr_p11_reset_slot_list and eid_vwr_p11_check_reader_list return: a failure means that a search for a card
  // found none, or that the module could not tell about the slot.
  predicate ResetFails(a: Answers) {
    a.memory != [] && a.countRv == CKR_OK && a.listRv == CKR_OK && FindCard(a) == None
  }

  predicate CheckFails(s: State, event: Option<nat>, a: Answers)
    requires Consistent(s)
  {
    s.list != None && Known(s, SlotOf(s, event))
    && (if a.infoRv == CKR_OK then !a.present && s.auto && Check(s, event, a).current == None
        else a.infoRv != CKR_DEVICE_ERROR)
  }

  function Next(s: State, step: Step): (r: State)
    requires Consistent(s)
  {
    match step
    case SlotEvent(slot, a) => Check(s, slot, a)
    case Select(auto, manual) => if auto then s.(auto := true) else s.(auto := false, manual := manual)
  }

  predicate Usual(steps: seq<Step>) { forall k | 0 <= k < |steps| :: steps[k].SlotEvent? ==> Plausible(steps[k].a) }

  lemma StaysConsistent(s: State, step: Step)
    requires Consistent(s) && (step.SlotEvent? ==> Plausible(step.a))
    ensures Consistent(Next(s, step))
  {
  }

  // ---- What reports mean

  // The card that is outstanding after some reports: the last one inserted, unless a removal came since.
  function Outstanding(reports: seq<Report>): Option<nat> {
    if reports == [] then None
    else
      var last := reports[|reports| - 1];
      match last
      case Inserted(slot) => Some(slot)
      case Removed(_) => None
      case ReaderFound(_) => Outstanding(reports[..|reports| - 1])
  }

  // Insertions and removals take turns, an insertion first.
  predicate TakeTurns(reports: seq<Report>) {
    reports != [] ==>
      var n := |reports| - 1;
      TakeTurns(reports[..n])
      && (reports[n].Inserted? ==> Outstanding(reports[..n]) == None)
      && (reports[n].Removed? ==> Outstanding(reports[..n]) != None)
  }

  // The monitor's idea of the current card is the one its reports have given.
  predicate Agrees(s: State) { TakeTurns(s.reports) && Outstanding(s.reports) == s.current }

  lemma TellKeeps(s: State, r: Report)
    requires Agrees(s)
    requires (r.Inserted? ==> s.current == None) && (r.Removed? ==> s.current != None)
    ensures TakeTurns(Tell(s, r).reports)
    ensures Outstanding(Tell(s, r).reports)
         == if r.Inserted? then Some(r.slot) else if r.Removed? then None else s.current
  {
    assert Tell(s, r).reports[..|s.reports|] == s.reports;
  }

  lemma SearchKeeps(s: State, a: Answers)
    requires Agrees(s) && s.current == None
    ensures Agrees(Search(s, a))
  {
    hide TakeTurns, Outstanding, FindCard;
    if FindCard(a) != None { TellKeeps(s, Inserted(FindCard(a).value)); }
  }

  lemma ResetKeeps(s: State, a: Answers)
    requires Agrees(s)
    ensures Agrees(Reset(s, a))
  {
    hide TakeTurns, Outstanding, Search;
    if s.current != None { TellKeeps(s, Removed(s.current.value)); }
    var cleared := if s.current == None then s else Remove(s, s.current.value);
    if a.memory != [] {
      var empty := cleared.(list := Some(a.memory), count := a.filled, auto := true);
      TellKeeps(empty, ReaderFound(a.memory[0]));
      SearchKeeps(Tell(empty, ReaderFound(a.memory[0])), a);
    }
  }

  lemma CheckKeeps(s: State, event: Option<nat>, a: Answers)
    requires Consistent(s) && Agrees(s)
    ensures Agrees(Check(s, event, a))
  {
    hide TakeTurns, Outstanding, Search, Reset, Known;
    ResetKeeps(s, a);
    var slot := if s.list == None then 0 else if event == None then s.list.value[0] else event.value;
    if s.current == None {
      TellKeeps(s, Inserted(slot));
      SearchKeeps(s, a);
    } else {
      TellKeeps(s, Removed(s.current.value));
      TellKeeps(s, Removed(slot));
      TellKeeps(Remove(s, s.current.value), Inserted(slot));
      SearchKeeps(Remove(s, s.current.value), a);
    }
  }

  function Run(s: State, steps: seq<Step>): (r: State)
    requires Consistent(s) && Usual(steps)
    ensures Consistent(r)
    decreases |steps|
  {
    if steps == [] then s
    else
      var n := |steps| - 1;
      var before := Run(s, steps[..n]);
      StaysConsistent(before, steps[n]);
      Next(before, steps[n])
  }

  /**
  Whatever the slots, the module and the user do: the state machine is told of insertions and removals in
  turn, an insertion first, and the monitor has a current card exactly while an insertion is outstanding.
  */
  lemma {:induction false} ReportsTakeTurns(steps: seq<Step>)
    requires Usual(steps)
    ensures var s := Run(Start, steps);
            TakeTurns(s.reports) && Outstanding(s.reports) == s.current
    decreases |steps|
  {
    hide Check, TakeTurns, Outstanding;
    if steps == [] {
      StartAgrees();
    } else {
      var n := |steps| - 1;
      ReportsTakeTurns(steps[..n]);
      var before := Run(Start, steps[..n]);
      match steps[n]
      case SlotEvent(slot, a) => CheckKeeps(before, slot, a);
      case Select(_, _) =>
    }
  }

  lemma StartAgrees()
    ensures Agrees(Start)
  {
  }

  // While a slot is selected, events of other known slots change nothing, neither before nor after they get a card.
  lemma SelectedSlotOnly(s: State, manual: nat, event: Option<nat>, a: Answers)
    requires Consistent(s) && Known(s, SlotOf(s, event)) && SlotOf(s, event) != manual && a.infoRv != CKR_DEVICE_ERROR
    ensures var q := Next(s, Select(false, manual)); Consistent(q) && Next(q, SlotEvent(event, a)) == q
  {
  }

  // Automatic mode never leaves a card in a slot that it was told is empty.
  lemma EmptySlotIsLeft(s: State, slot: nat, a: Answers)
    requires Consistent(s) && Known(s, slot) && a.infoRv == CKR_OK && !a.present && s.auto
    ensures var q := Check(s, Some(slot), a); q.current == Some(slot) ==> FindCard(a) == Some(slot)
  {
  }

  // ---- What has to be reported

  // The first listed token that is supported, by its index; none when the list could not be read.
  predicate FirstSupported(a: Answers, slot: Option<nat>) {
    var listed := a.tokens != [] && (a.cardsRv != CKR_BUFFER_TOO_SMALL || a.cardsAgainRv == CKR_OK);
    if slot == None then listed ==> forall i | 0 <= i < |a.tokens| :: a.tokens[i].rv != CKR_OK
    else
      listed && exists i :: 0 <= i < |a.tokens| && a.tokens[i] == Token(slot.value, CKR_OK)
                            && forall j | 0 <= j < i :: a.tokens[j].rv != CKR_OK
  }

  lemma {:induction false} FirstCardIs(tokens: seq<Token>)
    ensures var found := FirstCard(tokens);
            if found == None then forall i | 0 <= i < |tokens| :: tokens[i].rv != CKR_OK
            else exists i :: 0 <= i < |tokens| && tokens[i] == Token(found.value, CKR_OK)
                             && forall j | 0 <= j < i :: tokens[j].rv != CKR_OK
    decreases |tokens|
  {
    if tokens != [] && tokens[0].rv != CKR_OK {
      FirstCardIs(tokens[1..]);
      assert forall i | 0 < i < |tokens| :: tokens[i] == tokens[1..][i - 1];
      if FirstCard(tokens) != None {
        var i :| 0 <= i < |tokens[1..]| && tokens[1..][i] == Token(FirstCard(tokens).value, CKR_OK)
                 && forall j | 0 <= j < i :: tokens[1..][j].rv != CKR_OK;
        assert tokens[i + 1] == Token(FirstCard(tokens).value, CKR_OK);
        assert forall j | 0 < j < i + 1 :: tokens[j] == tokens[1..][j - 1];
      }
    } else if tokens != [] {
      assert tokens[0] == Token(tokens[0].slot, CKR_OK);
    }
  }

  lemma FindCardIs(a: Answers)
    ensures FirstSupported(a, FindCard(a))
  {
    FirstCardIs(a.tokens);
  }

  // The slot is one of the known entries of the list.
  predicate Listed(s: State, slot: nat)
    requires Consistent(s)
  {
    s.list != None && exists i :: 0 <= i < s.count && s.list.value[i] == slot
  }

  lemma KnownIsListed(s: State, slot: nat)
    requires Consistent(s)
    ensures Known(s, slot) <==> Listed(s, slot)
  {
    if Known(s, slot) {
      var known := s.list.value[..s.count];
      var i :| 0 <= i < |known| && known[i] == slot;
      assert s.list.value[i] == slot;
    }
    if Listed(s, slot) {
      var i :| 0 <= i < s.count && s.list.value[i] == slot;
      assert s.list.value[..s.count][i] == slot;
    }
  }

  // The slot that an event is about, an event without slot being about the first of the list.
  predicate About(s: State, event: Option<nat>, slot: nat)
    requires Consistent(s)
  {
    event == Some(slot) || (event == None && s.list != None && s.list.value[0] == slot)
  }

  // There is a supported token in a slot that is known.
  predicate CardIn(s: State, event: Option<nat>, a: Answers)
    requires Consistent(s)
  {
    s.list != None && Listed(s, SlotOf(s, event)) && a.infoRv == CKR_OK && a.present && a.tokenRv == CKR_OK
  }

  /**
  A card is taken. In automatic mode, unless there is a current card already, it is this one, and it is reported, once.
  On the selected slot it is this one in any case, after the removal of another one; on other slots nothing happens.
  */
  lemma CardTaken(s: State, event: Option<nat>, a: Answers)
    requires Consistent(s) && CardIn(s, event, a)
    ensures var q := Check(s, event, a);
            var slot := SlotOf(s, event);
            if !s.auto && slot != s.manual then q == s
            else
              && q.current == (if s.auto && s.current != None then s.current else Some(slot))
              && q.reports == s.reports + (if q.current == s.current then []
                                           else if s.current == None then [Inserted(slot)]
                                           else [Removed(s.current.value), Inserted(slot)])
    ensures About(s, event, SlotOf(s, event))
  {
    hide Known, Listed;
    KnownIsListed(s, SlotOf(s, event));
  }

  /**
  A known slot is empty. In automatic mode the card that was there is reported as removed, and if there is none then the
  first supported one in another slot becomes the current one and is reported.
  */
  lemma SlotEmptied(s: State, event: Option<nat>, a: Answers)
    requires Consistent(s) && s.list != None && Listed(s, SlotOf(s, event)) && a.infoRv == CKR_OK && !a.present
    ensures var q := Check(s, event, a);
            var slot := SlotOf(s, event);
            var left := if s.current == Some(slot) then [Removed(slot)] else [];
            if s.auto && (s.current == None || s.current == Some(slot)) then
              && FirstSupported(a, q.current)
              && q.reports == s.reports + left + if q.current == None then [] else [Inserted(q.current.value)]
            else if !s.auto && slot == s.manual && s.current != None then
              q.current == None && q.reports == s.reports + [Removed(slot)]
            else q == s
  {
    hide FindCard, FirstSupported, Known, Listed;
    KnownIsListed(s, SlotOf(s, event));
    FindCardIs(a);
    assert s.reports + [] == s.reports;
  }

  // The list of slots has to be made anew: there is none, the event is about a slot that is not in it, or the reader is gone.
  predicate Resets(s: State, event: Option<nat>, a: Answers)
    requires Consistent(s)
  {
    s.list == None || !Listed(s, SlotOf(s, event)) || a.infoRv == CKR_DEVICE_ERROR
  }

  /**
  Then the current card is reported as removed, the monitor is in automatic mode again, and if the new list can be read its
  reader is reported, and the first supported card becomes the current one and is reported.
  */
  lemma ListMadeAnew(s: State, event: Option<nat>, a: Answers)
    requires Consistent(s) && Resets(s, event, a)
    ensures var q := Check(s, event, a);
            var left := if s.current == None then [] else [Removed(s.current.value)];
            && q.auto
            && if a.countRv == CKR_OK && a.memory != [] && a.listRv == CKR_OK then
                 && q.list == Some(a.memory) && q.count == a.filled && FirstSupported(a, q.current)
                 && q.reports == s.reports + left + [ReaderFound(a.memory[0])]
                                 + if q.current == None then [] else [Inserted(q.current.value)]
               else
                 && q.current == None && q.count == 0 && q.reports == s.reports + left
                 && q.list == if a.countRv == CKR_OK && a.memory != [] then Some(a.memory) else None
  {
    hide FindCard, FirstSupported, Known, Listed;
    KnownIsListed(s, SlotOf(s, event));
    FindCardIs(a);
    assert s.reports + [] == s.reports;
  }

  // Otherwise the module cannot tell about the slot, or its token is not supported, and nothing happens.
  lemma NothingElse(s: State, event: Option<nat>, a: Answers)
    requires Consistent(s) && !Resets(s, event, a)
    requires a.infoRv != CKR_OK || (a.present && a.tokenRv != CKR_OK)
    ensures Check(s, event, a) == s
  {
    KnownIsListed(s, SlotOf(s, event));
  }

  // A call fails exactly when it searched for a card and found none, or when the module cannot tell about a known slot.
  lemma FailsExactly(s: State, event: Option<nat>, a: Answers)
    requires Consistent(s)
    ensures ResetFails(a) <==>
            a.countRv == CKR_OK && a.memory != [] && a.listRv == CKR_OK && FirstSupported(a, None)
    ensures CheckFails(s, event, a) <==>
            && s.list != None && Listed(s, SlotOf(s, event))
            && ((a.infoRv != CKR_OK && a.infoRv != CKR_DEVICE_ERROR)
                || (a.infoRv == CKR_OK && !a.present && s.auto && (s.current == None || s.current == Some(SlotOf(s, event)))
                    && FirstSupported(a, None)))
  {
    hide Known, Listed, FindCard;
    KnownIsListed(s, SlotOf(s, event));
    FindCardIs(a);
    FoundOrNot(a);
  }

  lemma FoundOrNot(a: Answers)
    ensures FirstSupported(a, None) <==> FindCard(a) == None
  {
    FindCardIs(a);
  }

  // Selecting only says which slot counts from now on.
  lemma Selected(s: State, auto: bool, manual: nat)
    requires Consistent(s)
    ensures var q := Next(s, Select(auto, manual));
            && q.auto == auto && (!auto ==> q.manual == manual)
            && (q.list, q.count, q.current, q.reports) == (s.list, s.count, s.current, s.reports)
  {
  }

  // A run is its steps, one after the other.
  lemma RunOne(s: State, steps: seq<Step>, step: Step)
    requires Consistent(s) && Usual(steps) && (step.SlotEvent? ==> Plausible(step.a))
    ensures Usual(steps + [step]) && Run(s, []) == s && Run(s, steps + [step]) == Next(Run(s, steps), step)
  {
    hide Next;
    assert (steps + [step])[..|steps|] == steps;
  }

  /**
  Over every run: when the last thing that happened is that a supported card is in a known slot, in automatic mode or in
  the selected slot, then a card has been reported and not removed since; in the selected slot it is this one.
  */
  lemma CardIsReported(steps: seq<Step>, event: Option<nat>, a: Answers)
    requires Usual(steps) && Plausible(a) && CardIn(Run(Start, steps), event, a)
    ensures var before := Run(Start, steps);
            var s := Run(Start, steps + [SlotEvent(event, a)]);
            var slot := SlotOf(before, event);
            && (before.auto ==> Outstanding(s.reports) == if before.current != None then before.current else Some(slot))
            && (!before.auto && before.manual == slot ==> Outstanding(s.reports) == Some(slot))
  {
    hide Check, Outstanding, TakeTurns;
    var all := steps + [SlotEvent(event, a)];
    assert all[..|all| - 1] == steps;
    ReportsTakeTurns(all);
    CardTaken(Run(Start, steps), event, a);
  }

  // ---- A removal that names another slot

  // Every removal in a list of reports that follows `before` names the card that is outstanding then.
  predicate NamesCard(before: seq<Report>, after: seq<Report>)
    requires before <= after
    decreases |after|
  {
    after != before ==>
      var n := |after| - 1;
      before <= after[..n] && NamesCard(before, after[..n])
      && (after[n].Removed? ==> Outstanding(after[..n]) == Some(after[n].slot))
  }

  // The branch of manual selection that tells of a removal from the selected slot while the card is elsewhere.
  predicate Misnames(s: State, event: Option<nat>, a: Answers)
    requires Consistent(s)
  {
    var slot := SlotOf(s, event);
    Known(s, slot) && a.infoRv == CKR_OK && !a.present && !s.auto && s.manual == slot
    && s.current != None && s.current != Some(slot)
  }

  lemma TellNames(s: State, r: Report, before: seq<Report>)
    requires before <= s.reports && NamesCard(before, s.reports)
    ensures before <= Tell(s, r).reports
    ensures NamesCard(before, Tell(s, r).reports) <==> (r.Removed? ==> Outstanding(s.reports) == Some(r.slot))
  {
    assert Tell(s, r).reports[..|s.reports|] == s.reports;
  }

  lemma ResetNames(s: State, a: Answers)
    requires Agrees(s)
    ensures s.reports <= Reset(s, a).reports && NamesCard(s.reports, Reset(s, a).reports)
  {
    hide TakeTurns, Outstanding, FindCard, NamesCard;
    NamesNothing(s.reports);
    if s.current != None { TellNames(s, Removed(s.current.value), s.reports); }
    var cleared := if s.current == None then s else Remove(s, s.current.value);
    if a.memory != [] {
      var empty := cleared.(list := Some(a.memory), count := a.filled, auto := true);
      TellNames(empty, ReaderFound(a.memory[0]), s.reports);
      if FindCard(a) != None {
        TellNames(Tell(empty, ReaderFound(a.memory[0])), Inserted(FindCard(a).value), s.reports);
      }
    }
  }

  // Handling a slot event names the wrong slot exactly in that branch.
  lemma RemovalsNameTheCard(s: State, event: Option<nat>, a: Answers)
    requires Consistent(s) && Agrees(s)
    ensures var q := Check(s, event, a);
            s.reports <= q.reports && (NamesCard(s.reports, q.reports) <==> !Misnames(s, event, a))
  {
    hide Agrees, NamesCard, Reset, FindCard, Known;
    assert Check(s, event, a) == Check(s, Some(SlotOf(s, event)), a);
    SlotNamesTheCard(s, SlotOf(s, event), a);
  }

  lemma SlotNamesTheCard(s: State, slot: nat, a: Answers)
    requires Consistent(s) && Agrees(s)
    ensures var q := Check(s, Some(slot), a);
            s.reports <= q.reports && (NamesCard(s.reports, q.reports) <==> !Misnames(s, Some(slot), a))
  {
    hide TakeTurns, Reset, FindCard, NamesCard, Outstanding;
    ResetNames(s, a);
    NamesNothing(s.reports);
    if s.list == None || !Known(s, slot) || a.infoRv != CKR_OK {
    } else if s.current == None {
      TellNames(s, Inserted(slot), s.reports);
      if FindCard(a) != None { TellNames(s, Inserted(FindCard(a).value), s.reports); }
    } else if s.current == Some(slot) {
      TellNames(s, Removed(slot), s.reports);
      if FindCard(a) != None { TellNames(Remove(s, slot), Inserted(FindCard(a).value), s.reports); }
    } else {
      TellNames(s, Removed(s.current.value), s.reports);
      TellNames(s, Removed(slot), s.reports);
      TellNames(Remove(s, s.current.value), Inserted(slot), s.reports);
    }
  }

  lemma NamesNothing(reports: seq<Report>)
    ensures NamesCard(reports, reports)
  {
  }

  // It happens: a card is in slot 1, the user selects slot 2, which is empty.
  lemma SelectingAnEmptySlot(a: Answers, b: Answers)
    requires a.memory == [1, 2] && a.filled == 2 && a.countRv == CKR_OK && a.listRv == CKR_OK
    requires a.cardsRv == CKR_OK && a.tokens == [Token(1, CKR_OK)]
    requires b.infoRv == CKR_OK && !b.present
    ensures var s1 := Check(Start, Some(1), a);
            var s2 := Next(s1, Select(false, 2));
            s2.reports == [ReaderFound(1), Inserted(1)]
            && Check(s2, Some(2), b).reports == [ReaderFound(1), Inserted(1), Removed(2)]
  {
    assert FirstCard(a.tokens) == Some(1);
    assert [] + [ReaderFound(1)] + [Inserted(1)] == [ReaderFound(1), Inserted(1)];
    var s1 := Check(Start, Some(1), a);
    assert s1 == State(Some([1, 2]), 2, Some(1), true, 0, [ReaderFound(1), Inserted(1)]);
    assert s1.list.value[..s1.count][1] == 2;
    assert Known(s1, 2);
  }

  // ---- The monitor itself

  class Monitor {
    var list: Option<seq<nat>>
    var count: nat
    var current: Option<nat>
    var auto: bool
    var manual: nat
    var reports: seq<Report>

    function Now(): State
      reads this
    {
      State(list, count, current, auto, manual, reports)
    }

    constructor ()
      ensures Now() == Start
    {
      list, count, current, auto, manual, reports := None, 0, None, true, 0, [];
    }

    method Handle(r: Report)
      modifies this`reports
      ensures reports == old(reports) + [r]
    {
      reports := reports + [r];
    }

    method SelectSlot(automatic: bool, slot: nat)
      requires Consistent(Now())
      modifies this
      ensures Now() == Next(old(Now()), Select(automatic, slot))
    {
      auto := automatic;
      if !auto {
        manual := slot;
      }
    }

    method FindEidCard(a: Answers) returns (found: Option<nat>)
      ensures found == FindCard(a)
    {
      if |a.tokens| == 0 {
        return None;
      }
      if a.cardsRv == CKR_BUFFER_TOO_SMALL && a.cardsAgainRv != CKR_OK {
        return None;
      }
      for i := 0 to |a.tokens|
        invariant FirstCard(a.tokens) == FirstCard(a.tokens[i..])
      {
        if a.tokens[i].rv == CKR_OK {
          return Some(a.tokens[i].slot);
        }
      }
      return None;
    }

    method ResetSlotList(a: Answers) returns (ret: int)
      modifies this
      ensures Now() == Reset(old(Now()), a)
      ensures ret == if ResetFails(a) then EIDV_RV_FAIL else EIDV_RV_OK
    {
      ret := EIDV_RV_OK;
      list := None;
      if current != None {
        Handle(Removed(current.value));
        current := None;
      }
      count := 0;
      auto := true;
      if a.memory != [] && a.countRv == CKR_OK {
        list := Some(a.memory);
        if a.listRv == CKR_OK {
          count := a.filled;
          Handle(ReaderFound(a.memory[0]));
          var card := FindEidCard(a);
          ret := if card == None then EIDV_RV_FAIL else EIDV_RV_OK;
          if card != None {
            current := card;
            Handle(Inserted(card.value));
          }
        }
      }
    }

    method CheckReaderList(event: Option<nat>, a: Answers) returns (ret: int)
      requires Consistent(Now())
      modifies this
      ensures Now() == Check(old(Now()), event, a)
      ensures ret == if CheckFails(old(Now()), event, a) then EIDV_RV_FAIL else EIDV_RV_OK
    {
      ret := EIDV_RV_OK;
      if list == None {
        var ignored := ResetSlotList(a);
        auto := true;
        return;
      }
      var slot := if event == None then list.value[0] else event.value;
      var known := false;
      for i := 0 to count
        invariant !known && Now() == old(Now())
        invariant forall j | 0 <= j < i :: list.value[j] != slot
      {
        if list.value[i] == slot {
          known := true;
          assert slot in list.value[..count] by { assert list.value[..count][i] == slot; }
          break;
        }
      }
      if !known {
        var ignored := ResetSlotList(a);
        return;
      }
      if a.infoRv != CKR_OK {
        if a.infoRv == CKR_DEVICE_ERROR {
          var ignored := ResetSlotList(a);
          return EIDV_RV_OK;
        }
        return EIDV_RV_FAIL;
      }
      if a.present {
        if a.tokenRv != CKR_OK {
          return EIDV_RV_OK;
        }
        if auto {
          if current == None {
            Handle(Inserted(slot));
            current := Some(slot);
          }
        } else if manual == slot {
          if current != None && current.value != manual {
            Handle(Removed(current.value));
            current := None;
          }
          if current != Some(manual) {
            Handle(Inserted(slot));
            current := Some(slot);
          }
        }
      } else if auto {
        if current == Some(slot) {
          Handle(Removed(slot));
          current := None;
        }
        if current == None {
          var card := FindEidCard(a);
          ret := if card == None then EIDV_RV_FAIL else EIDV_RV_OK;
          if card != None {
            current := card;
            Handle(Inserted(card.value));
          }
        }
      } else if manual == slot {
        if current != None {
          Handle(Removed(slot));
          current := None;
        }
      }
    }
  }
}
