/** A key passphrase of which the filter leaves nothing (src/client/openvpn3-service-client.cpp). */
module KeyPassphrase {
  import opened Outcomes
  import opened TextFilter
  import opened RequestQueue
  import opened CoreEvents
  import opened ClientSession
  import opened DynamicChallenges
  import opened AuthPending

  /** The slot the key passphrase is read from, or the number of slots. */
  function KeySlot(slots: seq<Slot>): nat {
    FindName(slots, CREDENTIALS, PK_PASSPHRASE, "pk_passphrase")
  }

  /** It has been provided and nothing was left of it. */
  predicate Spoiled(q: Queue) {
    var i := KeySlot(q.slots);
    i < |q.slots| && q.slots[i].provided && q.slots[i].value == ""
  }

  /** Evaluating the profile fails or asks for the passphrase. */
  predicate NeedsPassphrase(eval: Eval) {
    eval.Evaluated? ==> eval.pkPasswordRequired
  }

  lemma SpoiledIsRead(s: Session)
    requires Spoiled(s.queue) && |s.queue.slots| < TWO32
    ensures KeyPassword(s) == Ok("")
  {
    CountIsPresence(s.queue.slots, CREDENTIALS, PK_PASSPHRASE);
    CountWithinLength(s.queue.slots, CREDENTIALS, PK_PASSPHRASE);
  }

  /** No Connect call starts the client then. */
  lemma SpoiledBlocks(setup: Setup, s: Session, step: Step)
    requires Spoiled(s.queue) && |s.queue.slots| < TWO32 && step.Connect? && NeedsPassphrase(step.eval)
    ensures Next(setup, s, step).connects == s.connects
  {
    var e := Entered(s);
    SpoiledIsRead(e);
    if step.eval.Evaluated? {
      EmptyPassphraseBlocks(setup, e, step.eval, step.accepted);
    }
  }

  lemma SpoiledStep(setup: Setup, s: Session, step: Step)
    requires Spoiled(s.queue) && |s.queue.slots| < TWO32 && (step.Connect? ==> NeedsPassphrase(step.eval))
    ensures Spoiled(Next(setup, s, step).queue) && Next(setup, s, step).connects == s.connects
  {
    StepGrows(setup, s, step);
    GrownKeepsName(s.queue.slots, Next(setup, s, step).queue.slots, PK_PASSPHRASE, "pk_passphrase");
    if step.Connect? {
      SpoiledBlocks(setup, s, step);
    }
  }

  /** The queue is not too large and the step is no Connect of a profile that does without the passphrase. */
  predicate KeepsAsking(s: Session, step: Step) {
    |s.queue.slots| < TWO32 && (step.Connect? ==> NeedsPassphrase(step.eval))
  }

  lemma SpoiledNext(setup: Setup, ss: seq<Session>, steps: seq<Step>, k: nat)
    requires |ss| == |steps| + 1 && k < |steps| && Follows(setup, ss, steps, k)
    requires Spoiled(ss[k].queue) && KeepsAsking(ss[k], steps[k])
    ensures Spoiled(ss[k + 1].queue) && ss[k + 1].connects == ss[k].connects
  {
    SpoiledStep(setup, ss[k], steps[k]);
  }

  lemma {:induction false} SpoiledLasts(setup: Setup, ss: seq<Session>, steps: seq<Step>, i: nat, j: nat)
    requires IsSessionRun(setup, ss, steps) && i <= j <= |steps| && Spoiled(ss[i].queue)
    requires forall k :: i <= k < j ==> KeepsAsking(ss[k], steps[k])
    ensures Spoiled(ss[j].queue) && ss[j].connects == ss[i].connects
  {
    if i < j {
      var k := j - 1;
      SpoiledLasts(setup, ss, steps, i, k);
      assert Follows(setup, ss, steps, k);
      SpoiledNext(setup, ss, steps, k);
    }
  }

  /** Providing nothing but control characters spoils it: the slot counts as provided. */
  lemma ProvideSpoils(s: Session, text: string)
    requires Numbered(s.queue) && |s.queue.slots| <= TWO32
    requires KeySlot(s.queue.slots) < |s.queue.slots| && !s.queue.slots[KeySlot(s.queue.slots)].provided
    requires text != [] && forall c :: c in text ==> Dropped(c, true)
    ensures var slot := s.queue.slots[KeySlot(s.queue.slots)];
      Spoiled(Provided(s, CREDENTIALS, PK_PASSPHRASE, slot.id, text).0.queue)
  {
    var i := KeySlot(s.queue.slots);
    NothingLeft(text);
    CountWithinLength(s.queue.slots, CREDENTIALS, PK_PASSPHRASE);
    UpdateFillsNamedSlot(s.queue, i, text);
    var t := Provided(s, CREDENTIALS, PK_PASSPHRASE, s.queue.slots[i].id, text).0;
    FindSameShape(s.queue.slots, t.queue.slots, s.queue.slots[i]);
  }

  /** The step that answers the passphrase with nothing but control characters. */
  ghost predicate AnswersWithNothing(s: Session, step: Step) {
    var slots := s.queue.slots;
    && KeySlot(slots) < |slots| && !slots[KeySlot(slots)].provided
    && step.Provide? && step.value != [] && (forall c :: c in step.value ==> Dropped(c, true))
    && step == Provide(CREDENTIALS, PK_PASSPHRASE, slots[KeySlot(slots)].id, step.value)
  }

  lemma AnswerSpoils(setup: Setup, s: Session, step: Step)
    requires Numbered(s.queue) && |s.queue.slots| <= TWO32 && AnswersWithNothing(s, step)
    ensures Spoiled(Next(setup, s, step).queue) && Next(setup, s, step).connects == s.connects
  {
    ProvideSpoils(Entered(s), step.value);
  }

  lemma AnswerSpoilsAt(setup: Setup, ss: seq<Session>, steps: seq<Step>, i: nat)
    requires |ss| == |steps| + 1 && i < |steps| && Follows(setup, ss, steps, i)
    requires Numbered(ss[i].queue) && |ss[i].queue.slots| <= TWO32 && AnswersWithNothing(ss[i], steps[i])
    ensures Spoiled(ss[i + 1].queue) && ss[i + 1].connects == ss[i].connects
  {
    AnswerSpoils(setup, ss[i], steps[i]);
  }

  lemma SpoiledAfter(setup: Setup, ss: seq<Session>, steps: seq<Step>, i: nat)
    requires IsSessionRun(setup, ss, steps) && i < |steps| && AnswersWithNothing(ss[i], steps[i])
    requires forall k :: 0 <= k <= i ==> |ss[k].queue.slots| < TWO32
    ensures Spoiled(ss[i + 1].queue) && ss[i + 1].connects == ss[i].connects
  {
    RunKeepsPairs(setup, ss, steps, i);
    AnswerSpoilsAt(setup, ss, steps, i);
  }

  /**
   * In every run, once the passphrase asked for has been answered with nothing but control characters, no
   * Connect call ever starts the client as long as the profile needs the passphrase.
   */
  lemma EmptyPassphraseBlocksForever(setup: Setup, ss: seq<Session>, steps: seq<Step>, i: nat, j: nat)
    requires IsSessionRun(setup, ss, steps) && i < j <= |steps|
    requires forall k :: 0 <= k < j ==> |ss[k].queue.slots| < TWO32
    requires forall k :: i <= k < j && steps[k].Connect? ==> NeedsPassphrase(steps[k].eval)
    requires AnswersWithNothing(ss[i], steps[i])
    ensures Spoiled(ss[j].queue) && ss[j].connects == ss[i].connects
  {
    SpoiledAfter(setup, ss, steps, i);
    SpoiledLasts(setup, ss, steps, i + 1, j);
  }
}
