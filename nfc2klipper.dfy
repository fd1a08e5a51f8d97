/**
  The engine of nfc2klipper.py as the program runs it: the cache that
  set_spool_and_filament keeps in its function attributes old_spool and
  old_filament, updated in place, and the handlers the reader calls. A
  ghost history records every call to the printer. SetSpoolAndFilament,
  OnNfcTagPresent, OnNfcNoTagPresent, the constructor and Start are proved
  to produce the state SyncSpec gives for them and to keep the engine
  invariant SyncSpec.Consistent. Publish is the bare call inside the try
  block; it promises no invariant, and SetSpoolAndFilament calls it only
  with the cache unset.
*/
module Nfc2Klipper {
  import opened Wrappers
  import opened MoonrakerWebClient
  import opened SyncSpec

  class SyncEngine {
    /** should_clear_spool(): the clear_spool setting, fixed once configuration is read. */
    const clearSpool: bool

    /** The last call's pair if that call succeeded; unset at start and after a failure. */
    var oldSpool: Option<nat>
    var oldFilament: Option<nat>

    /** Every call made to the printer so far, oldest first. */
    ghost var log: seq<Attempt>

    ghost function Cache(): Option<Pair>
      reads this
    {
      if oldSpool.Some? && oldFilament.Some? then Some(Pair(oldSpool.value, oldFilament.value)) else None
    }

    ghost function State(): EngineState
      reads this
    {
      EngineState(Cache(), log)
    }

    /** The two attributes are set and unset together, and agree with the history. */
    ghost predicate Valid()
      reads this
    {
      oldSpool.Some? == oldFilament.Some? && Consistent(State())
    }

    /** The engine before its first call: both attributes unset. */
    constructor (clearSpool: bool)
      ensures Valid() && this.clearSpool == clearSpool
      ensures oldSpool == None && oldFilament == None && log == []
      ensures State() == Initial
    {
      this.clearSpool := clearSpool;
      oldSpool, oldFilament := None, None;
      log := [];
    }

    /**
      The call moonraker.set_spool_and_filament(spool, filament, 0) inside
      its try block: true when it returned, false when it raised (and the
      exception was logged and swallowed). The history records the call and
      the cache as it stood when the call was made.
    */
    method Publish(spool: nat, filament: nat, reply: Reply) returns (ok: bool)
      modifies this`log
      ensures ok == Accepted(reply)
      ensures log == old(log) + [Attempt(Pair(spool, filament), Cache(), reply)]
    {
      log := log + [Attempt(Pair(spool, filament), Cache(), reply)];
      ok := Accepted(reply);
    }

    /** set_spool_and_filament: dedup, invalidate, publish, record on success. */
    method SetSpoolAndFilament(spool: nat, filament: nat, reply: Reply)
      requires Valid()
      modifies this
      ensures Valid()
      ensures State() == SyncStep(old(State()), Pair(spool, filament), reply)
      // A duplicate makes no call and leaves the cache as it was.
      ensures old(oldSpool) == Some(spool) && old(oldFilament) == Some(filament) ==>
        oldSpool == old(oldSpool) && oldFilament == old(oldFilament) && log == old(log)
      // Anything else makes exactly one call, with the cache unset while it runs ...
      ensures !(old(oldSpool) == Some(spool) && old(oldFilament) == Some(filament)) ==>
        log == old(log) + [Attempt(Pair(spool, filament), None, reply)]
      // ... and leaves the pair cached on success, the cache unset on failure.
      ensures !(old(oldSpool) == Some(spool) && old(oldFilament) == Some(filament)) ==>
        if Accepted(reply) then oldSpool == Some(spool) && oldFilament == Some(filament)
        else oldSpool == None && oldFilament == None
    {
      ghost var before := State();
      if oldSpool == Some(spool) && oldFilament == Some(filament) {
        return;
      }
      oldSpool, oldFilament := None, None;
      var ok := Publish(spool, filament, reply);
      if ok {
        oldSpool, oldFilament := Some(spool), Some(filament);
      }
      SyncStepPreserves(before, Pair(spool, filament), reply);
    }

    /** on_nfc_tag_present: decide from the policy and the fields, then publish. */
    method OnNfcTagPresent(spool: Option<nat>, filament: Option<nat>, reply: Reply)
      requires Valid()
      modifies this
      ensures Valid()
      ensures State() == Handle(clearSpool, old(State()), TagPresent(spool, filament, reply))
      // Without the clear policy an incomplete record changes nothing.
      ensures !clearSpool && !(Usable(spool) && Usable(filament)) ==>
        oldSpool == old(oldSpool) && oldFilament == old(oldFilament) && log == old(log)
    {
      if clearSpool || (Usable(spool) && Usable(filament)) {
        var spoolId: nat, filamentId: nat;
        if !Usable(spool) {
          spoolId := 0;
        } else {
          spoolId := spool.value;
        }
        if !Usable(filament) {
          filamentId := 0;
        } else {
          filamentId := filament.value;
        }
        SetSpoolAndFilament(spoolId, filamentId, reply);
      }
    }

    /** on_nfc_no_tag_present: publish the cleared pair under the clear policy only. */
    method OnNfcNoTagPresent(reply: Reply)
      requires Valid()
      modifies this
      ensures Valid()
      ensures State() == Handle(clearSpool, old(State()), NoTagPresent(reply))
      ensures !clearSpool ==> oldSpool == old(oldSpool) && oldFilament == old(oldFilament) && log == old(log)
    {
      if clearSpool {
        SetSpoolAndFilament(0, 0, reply);
      }
    }
  }

  /**
    The start of the main block: a fresh engine and, under the clear policy,
    one publish of (0, 0) before the reader's callbacks are registered. The
    cache starts unset, so that publish is always attempted.
  */
  method Start(clearSpool: bool, reply: Reply) returns (engine: SyncEngine)
    ensures fresh(engine) && engine.Valid() && engine.clearSpool == clearSpool
    ensures engine.State() == Startup(clearSpool, reply)
    ensures clearSpool ==> engine.log == [Attempt(Cleared, None, reply)]
    ensures !clearSpool ==> engine.log == []
  {
    engine := new SyncEngine(clearSpool);
    if clearSpool {
      engine.SetSpoolAndFilament(0, 0, reply);
    }
  }

  /** A client of the class: a tag read twice is published once, and retried after a failure. */
  method ReadTwice(spool: nat, filament: nat)
    requires spool != 0 && filament != 0
  {
    var engine := Start(false, NoReply);
    engine.OnNfcTagPresent(Some(spool), Some(filament), Status(502));
    assert |engine.log| == 1 && engine.oldSpool == None;
    engine.OnNfcTagPresent(Some(spool), Some(filament), Status(200));
    assert |engine.log| == 2 && engine.oldSpool == Some(spool);
    engine.OnNfcTagPresent(Some(spool), Some(filament), Status(200));
    assert |engine.log| == 2;
    engine.OnNfcNoTagPresent(Status(200));
    assert |engine.log| == 2 && engine.oldFilament == Some(filament);
  }
}
