/**
 The journal of a session's local edits: one entry an edit, in the order they were made, each with
 the one fate it met. What a session queues and what it still holds are read off it exactly.
 */
module EditJournal {
  import opened Options
  import opened Replica
  import opened Frames
  import opened Session
  import opened SessionFrames
  import opened Speculation
  import opened Flushes
  import opened EditLedger

  datatype Fate = WasPublished | IsHeld | WasDiscarded | WasDropped

  datatype Entry = Entry(edit: Delta, fate: Fate)

  function EditsOf(j: seq<Entry>): seq<Delta> {
    if j == [] then [] else [j[0].edit] + EditsOf(j[1..])
  }

  /** The edits that met one fate, in the order they were made. */
  function OfFate(j: seq<Entry>, fate: Fate): seq<Delta> {
    if j == [] then []
    else (if j[0].fate == fate then [j[0].edit] else []) + OfFate(j[1..], fate)
  }

  /** Nothing held was made before something published. */
  predicate InOrder(j: seq<Entry>) {
    j == [] || (InOrder(j[1..]) && (j[0].fate.IsHeld? ==> OfFate(j[1..], WasPublished) == []))
  }

  /** The held entries the mask picks, published. */
  function PublishPicked(j: seq<Entry>, mask: seq<bool>): seq<Entry> {
    if j == [] || mask == [] then j
    else if !j[0].fate.IsHeld? then [j[0]] + PublishPicked(j[1..], mask)
    else [if mask[0] then j[0].(fate := WasPublished) else j[0]] + PublishPicked(j[1..], mask[1..])
  }

  function DropHeld(j: seq<Entry>): seq<Entry> {
    if j == [] then []
    else [if j[0].fate.IsHeld? then j[0].(fate := WasDropped) else j[0]] + DropHeld(j[1..])
  }

  /** The held entries, against the held edits they stand for: the speculative ones are discarded. */
  function DiscardHeld(j: seq<Entry>, held: seq<Unsent>): seq<Entry> {
    if j == [] || held == [] then j
    else if !j[0].fate.IsHeld? then [j[0]] + DiscardHeld(j[1..], held)
    else [if held[0].speculative then j[0].(fate := WasDiscarded) else j[0]] + DiscardHeld(j[1..], held[1..])
  }

  lemma {:induction false} AppendEntry(j: seq<Entry>, last: Entry)
    requires !last.fate.WasPublished?
    ensures EditsOf(j + [last]) == EditsOf(j) + [last.edit] && (InOrder(j + [last]) <==> InOrder(j))
    ensures forall fate :: OfFate(j + [last], fate) == OfFate(j, fate) + (if last.fate == fate then [last.edit] else [])
  {
    hide EditsOf, OfFate, InOrder;
    NoEntries();
    if j == [] {
      assert j + [last] == [last] + [];
      ConsEntry(last, []);
    } else {
      var rest := j[1..];
      assert j == [j[0]] + rest && j + [last] == [j[0]] + (rest + [last]);
      ConsEntry(j[0], rest);
      AppendEntry(rest, last);
      ConsEntry(j[0], rest + [last]);
    }
  }

  lemma ConsEntry(head: Entry, rest: seq<Entry>)
    ensures EditsOf([head] + rest) == [head.edit] + EditsOf(rest)
    ensures forall fate :: OfFate([head] + rest, fate) == (if head.fate == fate then [head.edit] else []) + OfFate(rest, fate)
    ensures InOrder([head] + rest) <==> InOrder(rest) && (head.fate.IsHeld? ==> OfFate(rest, WasPublished) == [])
  {
    assert ([head] + rest)[1..] == rest;
  }

  /** `p` is `j` with what the mask picks of its held entries published. */
  ghost predicate Publishes(j: seq<Entry>, mask: seq<bool>, p: seq<Entry>) {
    var held := OfFate(j, IsHeld);
    && EditsOf(p) == EditsOf(j) && OfFate(p, IsHeld) == Skipped(held, mask)
    && multiset(OfFate(p, WasPublished)) == multiset(OfFate(j, WasPublished)) + multiset(Picked(held, mask))
    && OfFate(p, WasDiscarded) == OfFate(j, WasDiscarded) && OfFate(p, WasDropped) == OfFate(j, WasDropped)
  }

  lemma PublishesHeld(head: Entry, rest: seq<Entry>, mask: seq<bool>, p: seq<Entry>)
    requires head.fate.IsHeld? && mask != [] && Publishes(rest, mask[1..], p)
    ensures Publishes([head] + rest, mask, [if mask[0] then head.(fate := WasPublished) else head] + p)
  {
    hide OfFate, EditsOf, InOrder, Picked, Skipped;
    ConsEntry(head, rest);
    ConsEntry(if mask[0] then head.(fate := WasPublished) else head, p);
    ConsPicked(head.edit, OfFate(rest, IsHeld), mask);
  }

  lemma PublishesPast(head: Entry, rest: seq<Entry>, mask: seq<bool>, p: seq<Entry>)
    requires !head.fate.IsHeld? && Publishes(rest, mask, p)
    ensures Publishes([head] + rest, mask, [head] + p)
  {
    hide OfFate, EditsOf, InOrder, Picked, Skipped;
    ConsEntry(head, rest);
    ConsEntry(head, p);
    assert OfFate([head] + rest, IsHeld) == OfFate(rest, IsHeld) && OfFate([head] + p, IsHeld) == OfFate(p, IsHeld);
  }

  /** Publishing what a mask picks: no entry is lost, and none is published twice. */
  lemma {:induction false} PublishPickedMoves(j: seq<Entry>, mask: seq<bool>)
    ensures Publishes(j, mask, PublishPicked(j, mask))
  {
    hide Publishes;
    if j == [] || mask == [] {
      PublishesNone(j, mask);
    } else {
      assert j == [j[0]] + j[1..];
      if j[0].fate.IsHeld? {
        PublishPickedMoves(j[1..], mask[1..]);
        PublishesHeld(j[0], j[1..], mask, PublishPicked(j[1..], mask[1..]));
      } else {
        PublishPickedMoves(j[1..], mask);
        PublishesPast(j[0], j[1..], mask, PublishPicked(j[1..], mask));
      }
    }
  }

  lemma PublishesNone(j: seq<Entry>, mask: seq<bool>)
    requires j == [] || mask == []
    ensures Publishes(j, mask, j)
  {
    NoEntries();
  }

  /** Publishing keeps a journal in order exactly when the mask overtakes nothing. */
  ghost predicate KeepsOrder(j: seq<Entry>, mask: seq<bool>, p: seq<Entry>) {
    && (InOrder(p) <==> !OutOfOrder(mask))
    && (InOrder(p) ==> OfFate(p, WasPublished) == OfFate(j, WasPublished) + Picked(OfFate(j, IsHeld), mask))
  }

  lemma OrdersHeld(head: Entry, rest: seq<Entry>, mask: seq<bool>, p: seq<Entry>)
    requires head.fate.IsHeld? && InOrder([head] + rest) && 0 < |mask| <= |OfFate(rest, IsHeld)| + 1
    requires KeepsOrder(rest, mask[1..], p) && Publishes(rest, mask[1..], p)
    ensures KeepsOrder([head] + rest, mask, [if mask[0] then head.(fate := WasPublished) else head] + p)
  {
    hide OfFate, EditsOf, InOrder, Picked, Skipped, OutOfOrder;
    ConsEntry(head, rest);
    ConsEntry(if mask[0] then head.(fate := WasPublished) else head, p);
    ConsPicked(head.edit, OfFate(rest, IsHeld), mask);
    PickedAny(OfFate(rest, IsHeld), mask[1..]);
    assert mask == [mask[0]] + mask[1..];
    ConsMask(mask[0], mask[1..]);
    assert OfFate(p, WasPublished) == [] <==> Picked(OfFate(rest, IsHeld), mask[1..]) == [] by {
      assert |multiset(OfFate(p, WasPublished))| == |multiset(Picked(OfFate(rest, IsHeld), mask[1..]))|;
    }
  }

  lemma OrdersPast(head: Entry, rest: seq<Entry>, mask: seq<bool>, p: seq<Entry>)
    requires !head.fate.IsHeld? && KeepsOrder(rest, mask, p)
    ensures KeepsOrder([head] + rest, mask, [head] + p)
  {
    hide OfFate, EditsOf, InOrder, Picked, OutOfOrder;
    ConsEntry(head, rest);
    ConsEntry(head, p);
    assert OfFate([head] + rest, IsHeld) == OfFate(rest, IsHeld);
  }

  lemma {:induction false} PublishPickedOrders(j: seq<Entry>, mask: seq<bool>)
    requires InOrder(j) && |mask| <= |OfFate(j, IsHeld)|
    ensures KeepsOrder(j, mask, PublishPicked(j, mask))
  {
    hide OfFate, EditsOf, InOrder, KeepsOrder, Publishes;
    if j == [] || mask == [] {
      OrdersNone(j, mask);
    } else {
      assert j == [j[0]] + j[1..];
      ConsEntry(j[0], j[1..]);
      if j[0].fate.IsHeld? {
        PublishPickedOrders(j[1..], mask[1..]);
        PublishPickedMoves(j[1..], mask[1..]);
        OrdersHeld(j[0], j[1..], mask, PublishPicked(j[1..], mask[1..]));
      } else {
        PublishPickedOrders(j[1..], mask);
        OrdersPast(j[0], j[1..], mask, PublishPicked(j[1..], mask));
      }
    }
  }

  lemma OrdersNone(j: seq<Entry>, mask: seq<bool>)
    requires InOrder(j) && |mask| <= |OfFate(j, IsHeld)| && (j == [] || mask == [])
    ensures KeepsOrder(j, mask, j)
  {
    NoEntries();
  }

  lemma {:induction false} PickedAny(edits: seq<Delta>, mask: seq<bool>)
    requires |mask| <= |edits|
    ensures Picked(edits, mask) != [] <==> true in mask
  {
    if mask != [] {
      assert mask == [mask[0]] + mask[1..];
      PickedAny(edits[1..], mask[1..]);
    }
  }

  lemma NoEntries()
    ensures EditsOf([]) == [] && InOrder([]) && forall fate :: OfFate([], fate) == []
  {
  }

  lemma {:induction false} DropHeldDrops(j: seq<Entry>)
    ensures var d := DropHeld(j);
            && EditsOf(d) == EditsOf(j) && InOrder(d)
            && OfFate(d, WasPublished) == OfFate(j, WasPublished) && OfFate(d, IsHeld) == []
  {
    if j != [] {
      DropHeldDrops(j[1..]);
    }
  }

  lemma {:induction false} DiscardHeldDiscards(j: seq<Entry>, held: seq<Unsent>)
    requires OfFate(j, IsHeld) == Deltas(held)
    ensures var d := DiscardHeld(j, held);
            && EditsOf(d) == EditsOf(j) && (InOrder(j) ==> InOrder(d))
            && OfFate(d, WasPublished) == OfFate(j, WasPublished)
            && OfFate(d, IsHeld) == Deltas(Settled(held))
  {
    DeltasLength(held);
    if j == [] || held == [] {
      NoEntries();
    } else {
      hide OfFate, EditsOf, InOrder, Deltas;
      assert j == [j[0]] + j[1..];
      ConsEntry(j[0], j[1..]);
      DeltasOfHead(held);
      if j[0].fate.IsHeld? {
        assert OfFate(j, IsHeld)[1..] == OfFate(j[1..], IsHeld) && Deltas(held)[1..] == Deltas(held[1..]);
        DiscardHeldDiscards(j[1..], held[1..]);
        var head := if held[0].speculative then j[0].(fate := WasDiscarded) else j[0];
        ConsEntry(head, DiscardHeld(j[1..], held[1..]));
        if !held[0].speculative {
          DeltasOfHead(Settled(held));
        }
      } else {
        DiscardHeldDiscards(j[1..], held);
        ConsEntry(j[0], DiscardHeld(j[1..], held));
      }
    }
  }

  // --- the journal of a run ------------------------------------------------------------------------

  /** The journal with the step's own edit entered, as held until the mask says otherwise. */
  ghost function WithMade(j: seq<Entry>, s: Session, i: Input): seq<Entry> {
    var made := Authored(s, i);
    j + (if made.Some? then [Entry(made.value, IsHeld)] else [])
  }

  /** How one step moves the entries: its new edit, if it makes one, and the fate of the held ones. */
  ghost function Noted(j: seq<Entry>, s: Session, i: Input): seq<Entry> {
    if i.Taken? then j
    else
      var made, t := Authored(s, i), Step(s, i);
      if s.ending.Some? then
        (if t.replica.unsent == [] then DropHeld(j) else j) + (if made.Some? then [Entry(made.value, WasDropped)] else [])
      else if made.None? && StepMask(s, i) == [] && |t.replica.unsent| < |s.replica.unsent| then
        DiscardHeld(j, s.replica.unsent)
      else
        PublishPicked(WithMade(j, s, i), StepMask(s, i))
  }

  ghost function Journal(s: Session, inputs: seq<Input>): seq<Entry> {
    if inputs == [] then []
    else
      var rest := inputs[..|inputs| - 1];
      Noted(Journal(s, rest), Run(s, rest), inputs[|inputs| - 1])
  }

  /** Every edit the session took, in the order it took them. */
  ghost function Taking(s: Session, inputs: seq<Input>): seq<Delta> {
    if inputs == [] then []
    else
      var rest := inputs[..|inputs| - 1];
      var made := Authored(Run(s, rest), inputs[|inputs| - 1]);
      Taking(s, rest) + (if made.Some? then [made.value] else [])
  }

  /** The journal is in order after every step of the run. */
  ghost predicate AlwaysInOrder(s: Session, inputs: seq<Input>) {
    InOrder(Journal(s, inputs)) && (inputs == [] || AlwaysInOrder(s, inputs[..|inputs| - 1]))
  }

  ghost predicate NeverOvertakes(s: Session, inputs: seq<Input>) {
    inputs == [] ||
    (var rest, last := inputs[..|inputs| - 1], inputs[|inputs| - 1];
     NeverOvertakes(s, rest) && !Overtakes(Run(s, rest), last))
  }

  ghost predicate Starts(s: Session) {
    Sane(s) && Tentative(s) && s.replica.unsent == []
  }

  ghost predicate Noting(j: seq<Entry>, s: Session) {
    OfFate(j, IsHeld) == Deltas(s.replica.unsent)
  }

  /** What one step does to the journal, as the frames it adds and the edits it leaves tell. */
  ghost predicate Notes(j: seq<Entry>, n: seq<Entry>, s: Session, i: Input, sent: seq<Delta>) {
    && Noting(n, Step(s, i))
    && EditsOf(n) == EditsOf(j) + (if Authored(s, i).Some? then [Authored(s, i).value] else [])
    && multiset(OfFate(n, WasPublished)) == multiset(OfFate(j, WasPublished)) + multiset(sent)
    && (InOrder(j) ==> (InOrder(n) <==> !Overtakes(s, i)))
    && (InOrder(j) && InOrder(n) ==> OfFate(n, WasPublished) == OfFate(j, WasPublished) + sent)
  }

  /** One step of the journal: what it notes is what the session queues and what it then holds. */
  lemma NotingOne(j: seq<Entry>, s: Session, i: Input)
    requires Follows(s, i) && Noting(j, s) && !i.Taken?
    ensures Notes(j, Noted(j, s, i), s, i, Sent(Added(s, Step(s, i))))
  {
    hide Step, StepMask, Authored, Follows, Noting, Notes, DropHeld, DiscardHeld, PublishPicked;
    if s.ending.Some? {
      NotingAnEnd(j, s, i);
    } else if Authored(s, i).None? && StepMask(s, i) == [] && |Step(s, i).replica.unsent| < |s.replica.unsent| {
      ASettledStep(s, i);
      NotingADiscard(j, s, i);
    } else {
      APublishingStep(s, i);
      NotingAPublication(j, s, i);
    }
  }

  lemma NotingAnEnd(j: seq<Entry>, s: Session, i: Input)
    requires Follows(s, i) && Noting(j, s) && !i.Taken? && s.ending.Some?
    ensures Notes(j, Noted(j, s, i), s, i, Sent(Added(s, Step(s, i))))
  {
    hide Step, StepMask, Authored, OfFate, EditsOf, InOrder, DropHeld, DiscardHeld, PublishPicked, Deltas, Settled, Added, Sent;
    var t, made := Step(s, i), Authored(s, i);
    DropHeldDrops(j);
    DeltasLength(t.replica.unsent);
    var k := if t.replica.unsent == [] then DropHeld(j) else j;
    if made.Some? {
      AppendEntry(k, Entry(made.value, WasDropped));
    } else {
      assert k + [] == k;
    }
  }

  lemma NotingADiscard(j: seq<Entry>, s: Session, i: Input)
    requires Noting(j, s) && !i.Taken? && s.ending.None? && Authored(s, i).None? && StepMask(s, i) == []
    requires |Step(s, i).replica.unsent| < |s.replica.unsent| && s.wire.outbound <= Step(s, i).wire.outbound
    requires Step(s, i).replica.unsent == Settled(s.replica.unsent) && Sent(Added(s, Step(s, i))) == []
    ensures Notes(j, Noted(j, s, i), s, i, Sent(Added(s, Step(s, i))))
  {
    hide Step, StepMask, Authored, OfFate, EditsOf, InOrder, DiscardHeld, Deltas, Settled, Added, Sent;
    DiscardHeldDiscards(j, s.replica.unsent);
  }

  lemma EnteringMade(j: seq<Entry>, s: Session, i: Input)
    requires Noting(j, s) && s.ending.None?
    ensures var k := WithMade(j, s, i);
            && EditsOf(k) == EditsOf(j) + (if Authored(s, i).Some? then [Authored(s, i).value] else [])
            && OfFate(k, IsHeld) == Pending(s, i) && OfFate(k, WasPublished) == OfFate(j, WasPublished)
            && (InOrder(k) <==> InOrder(j))
  {
    hide Authored, OfFate, EditsOf, InOrder, Deltas;
    var made := Authored(s, i);
    if made.Some? {
      AppendEntry(j, Entry(made.value, IsHeld));
    } else {
      assert WithMade(j, s, i) == j;
    }
  }

  lemma NotingAPublication(j: seq<Entry>, s: Session, i: Input)
    requires Noting(j, s) && s.ending.None? && s.wire.outbound <= Step(s, i).wire.outbound && Picks(s, i)
    ensures Notes(j, PublishPicked(WithMade(j, s, i), StepMask(s, i)), s, i, Sent(Added(s, Step(s, i))))
  {
    hide Step, StepMask, Authored, OfFate, EditsOf, InOrder, OutOfOrder, PublishPicked, Picked, Skipped, Deltas, Added, Sent, Pending, WithMade;
    var k, mask := WithMade(j, s, i), StepMask(s, i);
    EnteringMade(j, s, i);
    PublishPickedMoves(k, mask);
    if InOrder(j) {
      PublishPickedOrders(k, mask);
    }
  }

  /** A step that leaves fewer edits and sends none has discarded the speculative ones. */
  lemma ASettledStep(s: Session, i: Input)
    requires Follows(s, i) && s.ending.None? && Authored(s, i).None? && StepMask(s, i) == []
    requires |Step(s, i).replica.unsent| < |s.replica.unsent|
    ensures s.wire.outbound <= Step(s, i).wire.outbound
    ensures Step(s, i).replica.unsent == Settled(s.replica.unsent) && Sent(Added(s, Step(s, i))) == []
  {
    hide Step, StepMask, Authored;
    NothingPicked(Pending(s, i), []);
    assert |Pending(s, i)| == |s.replica.unsent|;
    DeltasLength(Step(s, i).replica.unsent);
  }

  lemma APublishingStep(s: Session, i: Input)
    requires Follows(s, i) && s.ending.None?
    requires Authored(s, i).Some? || StepMask(s, i) != [] || |s.replica.unsent| <= |Step(s, i).replica.unsent|
    ensures s.wire.outbound <= Step(s, i).wire.outbound && Picks(s, i)
  {
    hide Step, StepMask, Authored;
    if !Picks(s, i) {
      SettledSame(s.replica.unsent);
      assert Pending(s, i) == Deltas(s.replica.unsent);
      NothingPicked(Pending(s, i), []);
    }
  }

  lemma {:induction false} SettledSame(unsent: seq<Unsent>)
    ensures |Settled(unsent)| <= |unsent|
    ensures |Settled(unsent)| == |unsent| ==> Settled(unsent) == unsent
  {
    if unsent != [] {
      SettledSame(unsent[1..]);
      assert unsent == [unsent[0]] + unsent[1..];
    }
  }

  /**
   Conservation over every run, whatever fails to seal. The journal lists every edit taken, once,
   in order; those it calls published are the edits the session queued, each as often as it was
   queued, and those it calls held are what the session still holds, in order. Nothing held is
   ever older than something published exactly when no step overtakes, and then the published ones
   were queued in the order they were made.
   */
  lemma {:induction false} EditsAreConserved(s: Session, inputs: seq<Input>)
    requires Starts(s)
    ensures var t, j := Run(s, inputs), Journal(s, inputs);
            && Sane(t) && Tentative(t)
            && EditsOf(j) == Taking(s, inputs)
            && OfFate(j, IsHeld) == Deltas(t.replica.unsent)
            && multiset(OfFate(j, WasPublished)) == multiset(Sent(Emitted(s, inputs)))
            && (AlwaysInOrder(s, inputs) <==> NeverOvertakes(s, inputs))
            && (NeverOvertakes(s, inputs) ==> OfFate(j, WasPublished) == Sent(Emitted(s, inputs)))
    decreases |inputs|
  {
    hide Step, Noted, Authored, Sane, Tentative, OfFate, EditsOf, InOrder, Overtakes, Added, Sent;
    StartsMeans(s);
    NoEntries();
    if inputs != [] {
      var rest, last := inputs[..|inputs| - 1], inputs[|inputs| - 1];
      EditsAreConserved(s, rest);
      var t := Run(s, rest);
      ReplicaOfStep(t, last);
      if last.Taken? {
        DrainingKeeps(t);
        DrainingKeepsSane(t);
        assert Noted(Journal(s, rest), t, last) == Journal(s, rest) by { DrainingNotes(Journal(s, rest), t); }
      } else {
        StepFollows(t, last);
        NotingOne(Journal(s, rest), t, last);
        StepExtends(t, last);
        ExtendsMeans(t, Step(t, last));
        SentAdds(Emitted(s, rest), Added(t, Step(t, last)));
      }
    }
  }

  lemma DrainingNotes(j: seq<Entry>, s: Session)
    ensures Noted(j, s, Taken) == j
  {
  }

  lemma StartsMeans(s: Session)
    requires Starts(s)
    ensures Sane(s) && Tentative(s) && Deltas(s.replica.unsent) == [] && Sent([]) == []
  {
  }

  lemma DrainingKeeps(s: Session)
    ensures var t := Step(s, Taken);
            && t.replica == s.replica && t.who == s.who && (Drained(s) ==> Drained(t))
            && Authored(s, Taken).None? && !Overtakes(s, Taken)
  {
    assert StepMask(s, Taken) == [];
  }

  /**
   Absent seal failures no step of any run overtakes, so what is published is what was queued, in
   the order it was made; and a live writer with a frame left in its budget holds nothing.
   */
  lemma {:induction false} SealedEditsKeepTheirOrder(s: Session, inputs: seq<Input>)
    requires Starts(s) && SealsHold(s)
    ensures var t := Run(s, inputs);
            NeverOvertakes(s, inputs) && Drained(t) && SealsHold(t) && Sane(t) && Tentative(t)
    decreases |inputs|
  {
    hide Step, Sane, Tentative, Overtakes, Drained;
    if inputs == [] {
      NothingHeldIsDrained(s);
    } else {
      var rest, last := inputs[..|inputs| - 1], inputs[|inputs| - 1];
      SealedEditsKeepTheirOrder(s, rest);
      var t := Run(s, rest);
      ReplicaOfStep(t, last);
      if last.Taken? {
        DrainingKeeps(t);
        DrainingKeepsSane(t);
      } else {
        StepExtends(t, last);
        ExtendsMeans(t, Step(t, last));
        ExtendsMeansPrefix(t, Step(t, last));
        if last.Inserted? {
          EditMoves(t, last);
          DrainedEditsWait(t, last);
        } else {
          StepMoves(t, last);
          MovesInOrder(t, last);
        }
      }
    }
  }

  lemma NothingHeldIsDrained(s: Session)
    requires s.replica.unsent == []
    ensures Drained(s)
  {
  }

  lemma MovesInOrder(s: Session, i: Input)
    requires Moves(s, Step(s, i), StepMask(s, i)) && SealsHold(s)
    ensures !Overtakes(s, i)
  {
  }

  lemma DrainedEditsWait(s: Session, i: Input)
    requires Drained(s) && i.Inserted?
    ensures !Overtakes(s, i)
  {
    if i.fits {
      EditOvertakesIff(s, i);
    }
  }

  /** Why an edit is discarded: the step left a `viewer`, and the edit was made before any role. */
  lemma OnlyAViewerDiscards(s: Session, i: Input)
    requires Sane(s) && Tentative(s) && !i.Taken? && !i.Inserted? && s.ending.None?
    requires StepMask(s, i) == [] && |Step(s, i).replica.unsent| < |s.replica.unsent|
    ensures var t := Step(s, i);
            && OwnRole(t) == Some(ViewerRole) && s.replica.baseline.Some? && !CommitsOurs(s)
            && t.replica.unsent == Settled(s.replica.unsent)
  {
    hide Step, StepMask, Extends, Sane;
    StepMoves(s, i);
    NothingPicked(Deltas(s.replica.unsent), []);
    DeltasLength(Step(s, i).replica.unsent);
    DeltasLength(s.replica.unsent);
    SettledKeeps(s.replica.unsent);
  }

  /**
   The order needs the seals: a writer whose first edit cannot be sealed and whose second can has
   published the second and holds the first.
   */
  lemma AFailedSealReorders(s: Session, first: string, second: string)
    requires MayPublish(s) && IsWriter(s) && Tentative(s) && s.replica.unsent == []
    requires s.wire.roomFrames < s.who.budget
    requires s.wire.counter + 1 in s.who.unsealable && s.wire.counter + 2 !in s.who.unsealable
    ensures var t := Step(s, Inserted(first, true));
            var u := Step(t, Inserted(second, true));
            && s.wire.outbound <= u.wire.outbound
            && Sent(Added(s, u)) == [Atoms({NewAtom(t, second)})]
            && Deltas(u.replica.unsent) == [Atoms({NewAtom(s, first)})]
  {
    hide Diff, StateVector, NextClock, Insert;
    var t := Step(s, Inserted(first, true));
    WritersEdit(s, first);
    WritersEdit(t, second);
    var u := Step(t, Inserted(second, true));
    var frame := OwnFrame(s, Content, s.wire.counter + 2, StreamBody([Update(Atoms({NewAtom(t, second)}))]));
    assert Added(s, u) == [frame];
    SentOne(frame);
  }

  /** What one edit of a live writer does, sealed or not. */
  lemma WritersEdit(s: Session, payload: string)
    requires MayPublish(s) && IsWriter(s) && Tentative(s) && !AnySpeculative(s.replica.unsent)
    requires s.wire.roomFrames < s.who.budget
    ensures var t := Step(s, Inserted(payload, true));
            var delta := Atoms({NewAtom(s, payload)});
            && t.who == s.who && t.reader == s.reader && t.ending == s.ending && t.view == s.view
            && t.wire.counter == s.wire.counter + 1 && t.replica.baseline.None?
            && (s.wire.counter + 1 in s.who.unsealable ==>
                  && t.wire.roomFrames == s.wire.roomFrames && t.wire.outbound == s.wire.outbound
                  && t.replica.unsent == s.replica.unsent + [Unsent(delta, false)])
            && (s.wire.counter + 1 !in s.who.unsealable ==>
                  && t.wire.outbound == s.wire.outbound + [OwnFrame(s, Content, s.wire.counter + 1, StreamBody([Update(delta)]))]
                  && t.replica.unsent == s.replica.unsent)
  {
    hide Diff, StateVector, NextClock;
    EditDeltaIsTheEdit(s.replica.doc, s.who.client, payload);
    AcceptPlain(s.replica.unsent);
  }
}
