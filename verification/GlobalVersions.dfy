/** Kick versions over whole runs: what a slot may still do once a newer version has been presented. */
module GlobalVersions {
  import opened Wrappers
  import opened Decimal
  import opened GlobalLimit
  import opened GlobalLimitProofs

  /** The slot a step presents a version of; the cleaning steps present none. */
  function SlotOf(step: Step): Option<Slot> {
    match step
    case DoAdmit(args) => Some(args.slot)
    case DoVerify(args) => Some(args.slot)
    case DoEvict(args, _) => Some(args.slot)
    case DoSync(sync) => Some(sync.slot)
    case _ => None
  }

  function VersionOf(step: Step): nat {
    match step
    case DoAdmit(args) => args.version
    case DoVerify(args) => args.version
    case DoEvict(args, _) => args.version
    case DoSync(sync) => sync.version
    case _ => 0
  }

  predicate Revokes(step: Step) {
    step.DoSync? && step.sync.revoke
  }

  /** Until when the presented authorization asks its kick record to be kept; 0 for ever. */
  function AsksUntil(step: Step): int {
    match step
    case DoAdmit(args) => RetainUntil(args.validUntil, args.offset)
    case DoVerify(args) => RetainUntil(args.validUntil, args.offset)
    case DoEvict(args, _) => RetainUntil(args.validUntil, args.offset)
    case DoSync(sync) => RetainUntil(sync.validUntil, sync.offset)
    case _ => 0
  }

  /** Did the script let the presented version pass (its `authorized` before the deadline is looked at, and after)? */
  predicate Authorized(a: Account, step: Step) {
    match step
    case DoAdmit(args) => Open(a, args).2
    case DoVerify(args) => Open(a, args).2
    case DoEvict(args, _) => Open(a, args).2
    case DoSync(sync) => Present(a, sync.slot, sync.version, sync.validUntil, sync.offset, sync.revoke).1
    case _ => false
  }

  /** The scripts compare versions as decimal text; `Present` compares the numbers they denote. */
  lemma TextOrderIsNumeric(requested: nat, previous: nat)
    ensures NewerThan(Digits(requested), Digits(previous)) <==> requested > previous
    ensures Digits(requested) == Digits(previous) || NewerThan(Digits(requested), Digits(previous)) <==>
              requested >= previous
  {
    NewerThanIsNumeric(requested, previous);
    DigitsInjective(requested, previous);
  }

  /** The kick record of `s` rules out every version below `v`; after a revocation, every version. */
  predicate Barred(a: Account, s: Slot, v: nat, revoked: bool) {
    s in a.kicks && (a.kicks[s].Revoked? || (!revoked && a.kicks[s].v >= v))
  }

  /** The kick record of `s` is kept at least until `until`, where 0 is for ever. */
  predicate Retains(a: Account, s: Slot, until: int) {
    s in a.kicks && (a.kicks[s].retained == 0 || (until != 0 && a.kicks[s].retained >= until))
  }

  /** A cleaning of the kick record of `s` that comes an idle allowance after `until`. */
  predicate CleansAfter(step: Step, s: Slot, until: int) {
    step.DoCleanKick? && step.slot == s && until != 0 && until + step.expiry * 1000 <= step.nowMs
  }

  lemma OpenKicks(a: Account, args: Args)
    ensures Open(a, args).0.kicks == Present(a, args.slot, args.version, args.validUntil, args.offset, false).0.kicks
  {
  }

  lemma SweptKicks(swept: Account, view: View, args: Args, order: seq<Slot>)
    ensures AdmitSwept(swept, view, args).0.kicks == swept.kicks
    ensures EvictSwept(swept, view, args, order).0.kicks == swept.kicks
  {
  }

  lemma AdmitKicks(a: Account, args: Args)
    ensures Admit(a, args).0.kicks == Present(a, args.slot, args.version, args.validUntil, args.offset, false).0.kicks
  {
    OpenKicks(a, args);
    var (ledger, view, _) := Open(a, args);
    SweptKicks(Swept(ledger, args), view, args, []);
  }

  lemma EvictKicks(a: Account, args: Args, order: seq<Slot>)
    ensures Evict(a, args, order).0.kicks ==
              Present(a, args.slot, args.version, args.validUntil, args.offset, false).0.kicks
  {
    OpenKicks(a, args);
    var (ledger, view, _) := Open(a, args);
    SweptKicks(Swept(ledger, args), view, args, order);
  }

  /** The kick records after a step are those after presenting; nothing later in a script touches them. */
  lemma KicksAre(a: Account, step: Step)
    ensures step.DoAdmit? || step.DoVerify? || step.DoEvict? ==>
              var args := step.args;
              Apply(a, step).kicks ==
              Present(a, args.slot, args.version, args.validUntil, args.offset, false).0.kicks
    ensures step.DoSync? ==>
              var sync := step.sync;
              Apply(a, step).kicks ==
              Present(a, sync.slot, sync.version, sync.validUntil, sync.offset, sync.revoke).0.kicks
    ensures step.DoCleanPolicy? || step.DoCleanLedger? ==> Apply(a, step).kicks == a.kicks
    ensures step.DoCleanKick? ==>
              forall s :: s in a.kicks && s != step.slot ==>
                            s in Apply(a, step).kicks && Apply(a, step).kicks[s] == a.kicks[s]
  {
    match step
    case DoAdmit(args) => AdmitKicks(a, args);
    case DoVerify(args) => OpenKicks(a, args);
    case DoEvict(args, order) => EvictKicks(a, args, order);
    case _ =>
  }

  /** A record kept until `after` is kept no shorter than one kept until `before`; 0 is for ever. */
  predicate NoShorter(before: int, after: int) {
    after == 0 || (before != 0 && after >= before)
  }

  /** No slot is barred from less, or for a shorter time. */
  ghost predicate Grown(before: map<Slot, Kick>, after: map<Slot, Kick>) {
    forall s :: s in before ==>
                  && s in after && NoShorter(before[s].retained, after[s].retained)
                  && (after[s].Version? ==> before[s].Version? && after[s].v >= before[s].v)
  }

  lemma PresentedKicks(a: Account, slot: Slot, version: nat, validUntil: int, offset: int, revoke: bool)
    ensures var kicks := Present(a, slot, version, validUntil, offset, revoke).0.kicks;
            && Grown(a.kicks, kicks) && slot in kicks
            && NoShorter(RetainUntil(validUntil, offset), kicks[slot].retained)
            && (kicks[slot].Version? ==> !revoke && kicks[slot].v >= version)
  {
  }

  lemma StepKicks(a: Account, step: Step)
    requires SlotOf(step).Some?
    ensures var kicks, slot := Apply(a, step).kicks, SlotOf(step).value;
            && Grown(a.kicks, kicks) && slot in kicks && NoShorter(AsksUntil(step), kicks[slot].retained)
            && (kicks[slot].Version? ==> !Revokes(step) && kicks[slot].v >= VersionOf(step))
  {
    KicksAre(a, step);
    if step.DoSync? {
      var sync := step.sync;
      PresentedKicks(a, sync.slot, sync.version, sync.validUntil, sync.offset, sync.revoke);
    } else {
      var args := step.args;
      PresentedKicks(a, args.slot, args.version, args.validUntil, args.offset, false);
    }
  }

  lemma GrownBars(a: Account, next: Account, s: Slot, v: nat, revoked: bool, until: int)
    requires Barred(a, s, v, revoked) && Retains(a, s, until) && Grown(a.kicks, next.kicks)
    ensures Barred(next, s, v, revoked) && Retains(next, s, until)
  {
  }

  /** Whoever presents a version, authorized or not, bars everything below it; a revocation bars all. */
  lemma PresentingBars(a: Account, step: Step)
    requires SlotOf(step).Some?
    ensures Barred(Apply(a, step), SlotOf(step).value, VersionOf(step), Revokes(step))
  {
    StepKicks(a, step);
  }

  /** Presenting keeps the record for as long as the presented authorization asks, whatever was asked before. */
  lemma PresentingRetains(a: Account, step: Step)
    requires SlotOf(step).Some?
    ensures Retains(Apply(a, step), SlotOf(step).value, AsksUntil(step))
  {
    StepKicks(a, step);
  }

  /** Versions never fall, revocation is final and a record is kept no shorter than it ever was, through
      every step but a cleaning that comes after the time the record was to be kept. */
  lemma BarsLast(a: Account, step: Step, s: Slot, v: nat, revoked: bool, until: int)
    requires Barred(a, s, v, revoked) && Retains(a, s, until)
    requires !CleansAfter(step, s, until)
    ensures Barred(Apply(a, step), s, v, revoked) && Retains(Apply(a, step), s, until)
  {
    if SlotOf(step).Some? {
      StepKicks(a, step);
      GrownBars(a, Apply(a, step), s, v, revoked, until);
    } else {
      KicksAre(a, step);
    }
  }

  lemma BarsHold(a: Account, step: Step, v: nat, revoked: bool)
    requires SlotOf(step).Some? && Barred(a, SlotOf(step).value, v, revoked) && Authorized(a, step)
    ensures !revoked && VersionOf(step) >= v
  {
  }

  /** Between steps i and j of a run nobody cleans the kick record of `s` later than `until` allows for. */
  ghost predicate Kept(steps: seq<Step>, i: nat, j: nat, s: Slot, until: int)
    requires i <= j <= |steps|
  {
    forall k :: i <= k < j ==> !CleansAfter(steps[k], s, until)
  }

  /** A bar holds through a whole run, cleanings included, while the authorization presented may last. */
  lemma {:induction false} StillBarred(accounts: seq<Account>, steps: seq<Step>, i: nat, j: nat)
    requires Run(accounts, steps) && i < j <= |steps| && SlotOf(steps[i]).Some?
    requires Kept(steps, i + 1, j, SlotOf(steps[i]).value, AsksUntil(steps[i]))
    ensures Barred(accounts[j], SlotOf(steps[i]).value, VersionOf(steps[i]), Revokes(steps[i]))
    ensures Retains(accounts[j], SlotOf(steps[i]).value, AsksUntil(steps[i]))
    decreases j
  {
    if j == i + 1 {
      PresentingBars(accounts[i], steps[i]);
      PresentingRetains(accounts[i], steps[i]);
      assert accounts[i + 1] == Apply(accounts[i], steps[i]);
    } else {
      StillBarred(accounts, steps, i, j - 1);
      BarsLast(accounts[j - 1], steps[j - 1], SlotOf(steps[i]).value, VersionOf(steps[i]), Revokes(steps[i]),
               AsksUntil(steps[i]));
      assert accounts[j] == Apply(accounts[j - 1], steps[j - 1]);
    }
  }

  /** An account that starts empty is sound after every step, so in every reachable state an entry holds
      exactly the version of its kick record. */
  lemma {:induction false} AlwaysSound(accounts: seq<Account>, steps: seq<Step>, j: nat)
    requires Run(accounts, steps) && accounts[0] == EMPTY_ACCOUNT && j <= |steps|
    ensures AccountInv(accounts[j])
  {
    if j > 0 {
      AlwaysSound(accounts, steps, j - 1);
      assert Legal(accounts[j - 1], steps[j - 1]) && accounts[j] == Apply(accounts[j - 1], steps[j - 1]);
      StepKeeps(accounts[j - 1], steps[j - 1]);
    }
  }

  /** A step is authorized only if its version is at least every version presented for the slot before it,
      and only if nobody revoked the slot; and whatever the slot still holds carries such a version. */
  lemma SupersededHoldsNothing(accounts: seq<Account>, steps: seq<Step>, i: nat, j: nat)
    requires Run(accounts, steps) && accounts[0] == EMPTY_ACCOUNT && i < j <= |steps| && SlotOf(steps[i]).Some?
    requires Kept(steps, i + 1, j, SlotOf(steps[i]).value, AsksUntil(steps[i]))
    ensures j < |steps| && SlotOf(steps[j]) == SlotOf(steps[i]) && Authorized(accounts[j], steps[j]) ==>
              VersionOf(steps[j]) >= VersionOf(steps[i]) && !Revokes(steps[i])
    ensures var s := SlotOf(steps[i]).value;
            s in accounts[j].hash ==> accounts[j].hash[s].v >= VersionOf(steps[i]) && !Revokes(steps[i])
  {
    StillBarred(accounts, steps, i, j);
    AlwaysSound(accounts, steps, j);
    if j < |steps| && SlotOf(steps[j]) == SlotOf(steps[i]) && Authorized(accounts[j], steps[j]) {
      BarsHold(accounts[j], steps[j], VersionOf(steps[i]), Revokes(steps[i]));
    }
  }
}
