/** The phone lock table as the object the workers share
    (cmd/modem-test/coordinator.go:12-81), tied to the lock steps of the call pool.
    Each method body is what runs while the mutex is held; waiting releases it,
    so a waiting caller is a caller that makes another pass later. */
module Coordinator {
  import Pool = CallPool

  datatype Pass = Acquired | Cancelled | Wait

  class PhoneCoordinator {
    var inUse: map<string, string>
    var lastUsed: map<string, int>

    constructor ()
      ensures inUse == map[] && lastUsed == map[]
    {
      inUse, lastUsed := map[], map[];
    }

    // One pass of AcquirePhone's loop, for worker w in pool state s. It is the
    // pool's Acquire step, its GiveUp step, or no step at all.
    method AcquirePass(ctxDone: bool, phone: string, modemName: string,
                       ghost c: Pool.Config, ghost s: Pool.State, ghost w: nat)
      returns (pass: Pass)
      requires |s.workers| == |c.names| && w < |s.workers|
      requires s.workers[w].Waiting? && s.workers[w].node.phone == phone && c.names[w] == modemName
      requires inUse == s.inUse && ctxDone == s.poolDone
      modifies this`inUse
      ensures pass.Acquired? <==> Pool.Enabled(c, s, Pool.Acquire(w))
      ensures pass.Cancelled? <==> Pool.Enabled(c, s, Pool.GiveUp(w))
      ensures pass.Acquired? ==> inUse == Pool.Apply(c, s, Pool.Acquire(w)).inUse
      ensures !pass.Acquired? ==> inUse == old(inUse)
    {
      if ctxDone {
        return Cancelled;
      }
      if phone !in inUse {
        inUse := inUse[phone := modemName];
        return Acquired;
      }
      return Wait;
    }

    // The lock part of the pool's Hangup step; lastUsed remembers the release.
    method ReleasePhone(phone: string, now: int,
                        ghost c: Pool.Config, ghost s: Pool.State, ghost w: nat, ghost closed: bool)
      requires |s.workers| == |c.names| && w < |s.workers|
      requires s.workers[w].Calling? && s.workers[w].node.phone == phone && inUse == s.inUse
      modifies this
      ensures inUse == Pool.Apply(c, s, Pool.Hangup(w, closed)).inUse
      ensures lastUsed == old(lastUsed)[phone := now]
    {
      inUse := inUse - {phone};
      lastUsed := lastUsed[phone := now];
    }
  }
}
