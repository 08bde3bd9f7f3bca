/** The reference count of a socket description (`src/socketinfo.c`). */
module SocketInfos {
  /** The part of a description that its life depends on. `destroyed` counts how often it was destroyed. */
  datatype Info = Info(fd: int, sem: int, toDestroy: bool, destroyed: nat)

  function Init(fd: int): Info {
    Info(fd, 0, false, 0)
  }

  function Lock(i: Info): Info {
    i.(sem := i.sem + 1)
  }

  /** Gives a description back, and says whether the caller must destroy it. */
  function Unlock(i: Info): (Info, bool) {
    (i.(sem := i.sem - 1), i.toDestroy && i.sem == 1)
  }

  function Destroy(i: Info): Info {
    i.(destroyed := i.destroyed + 1)
  }

  /** Unlocks, and destroys at once if that is due. */
  function Release(i: Info): Info {
    var (j, last) := Unlock(i);
    if last then Destroy(j) else j
  }

  /** Takes a description that was found, unless it is condemned or no longer fits
      its socket; then it is condemned and given back. */
  function Check(i: Info, fits: bool): (Info, bool) {
    var j := Lock(i);
    if j.toDestroy || !fits then (Release(j.(toDestroy := true)), false) else (j, true)
  }

  /** A description that is found is taken exactly if it is not condemned and still fits. Otherwise it is
      condemned, its count is as before, and it is destroyed exactly if nobody holds it. */
  lemma CheckIff(i: Info, fits: bool)
    ensures var (j, ok) := Check(i, fits);
            && j.fd == i.fd && (ok <==> !i.toDestroy && fits)
            && (if ok then j.sem == i.sem + 1 && !j.toDestroy && j.destroyed == i.destroyed
                else j.sem == i.sem && j.toDestroy && j.destroyed == i.destroyed + (if i.sem == 0 then 1 else 0))
  {
  }

  class SocketInfo {
    const fd: int
    var sem: int
    var toDestroy: bool
    var destroyed: nat

    ghost function Model(): Info
      reads this
    {
      Info(fd, sem, toDestroy, destroyed)
    }

    constructor (fd: int)
      ensures Model() == Init(fd)
    {
      this.fd := fd;
      sem, toDestroy, destroyed := 0, false, 0;
    }

    method DoLock()
      modifies this
      ensures Model() == Lock(old(Model()))
    {
      sem := sem + 1;
    }

    method DoUnlock()
      modifies this
      ensures Model() == Release(old(Model()))
    {
      sem := sem - 1;
      var last := toDestroy && sem == 0;
      if last {
        DoDestroy();
      }
    }

    method DoDestroy()
      modifies this
      ensures Model() == Destroy(old(Model()))
    {
      destroyed := destroyed + 1;
    }

    /** `fits` is what the queries on the socket itself answer. */
    method DoCheck(fits: bool) returns (ok: bool)
      modifies this
      ensures (Model(), ok) == Check(old(Model()), fits)
    {
      DoLock();
      if toDestroy {
        toDestroy := true;
        DoUnlock();
        return false;
      }
      if !fits {
        toDestroy := true;
        DoUnlock();
        return false;
      }
      return true;
    }
  }
}
