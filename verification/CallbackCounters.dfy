/** What an evbuffer tells its callbacks: `n_add_for_cb`, `n_del_for_cb` and the reports made
    from them by `evbuffer_run_callbacks`. */
module CallbackCounters {

  datatype CbInfo = CbInfo(origSize: nat, nAdded: nat, nDeleted: nat)
  {
    /** The buffer length that a report describes. */
    function NewSize(): int {
      origSize + nAdded - nDeleted
    }
  }

  /** Every report starts from the length where the one before it ended. */
  ghost predicate Telescopes(reports: seq<CbInfo>, from: nat, to: nat)
    decreases |reports|
  {
    if reports == [] then
      from == to
    else
      var last := reports[|reports| - 1];
      && last.NewSize() == to
      && Telescopes(reports[..|reports| - 1], from, last.origSize)
  }

  /** What all the reports add up to. */
  ghost function NetChange(reports: seq<CbInfo>): int
  {
    if reports == [] then 0
    else NetChange(reports[1..]) + reports[0].nAdded - reports[0].nDeleted
  }

  lemma {:induction false} NetChangeSnoc(reports: seq<CbInfo>, info: CbInfo)
    ensures NetChange(reports + [info]) == NetChange(reports) + info.nAdded - info.nDeleted
  {
    if reports == [] {
      assert reports + [info] == [info];
      assert [info][1..] == [];
    } else {
      NetChangeSnoc(reports[1..], info);
      assert (reports + [info])[1..] == reports[1..] + [info];
    }
  }

  /** A callback that only adds up its reports always knows the buffer length. */
  lemma {:induction false} ReportsAddUp(reports: seq<CbInfo>, from: nat, to: nat)
    requires Telescopes(reports, from, to)
    ensures from + NetChange(reports) == to
    decreases |reports|
  {
    if reports != [] {
      var init, last := reports[..|reports| - 1], reports[|reports| - 1];
      ReportsAddUp(init, from, last.origSize);
      NetChangeSnoc(init, last);
      assert reports == init + [last];
    }
  }

  class Counters {
    var nAdd: nat
    var nDel: nat
    /** Whether any callback is on the list. */
    var registered: bool
    /** Whether callbacks wait for the event loop (`deferred_cbs`). */
    var deferred: bool
    /** The length when the counters were last cleared. */
    ghost var sizeAtClear: nat
    /** The length when the first callback was put on the list. */
    ghost var base: nat
    /** Every report that cleared the counters. */
    ghost var reports: seq<CbInfo>

    /** The counters account for the change from `sizeAtClear` to `len`. */
    ghost predicate Ok(len: nat)
      reads this
    {
      && len + nDel == sizeAtClear + nAdd
      && (registered ==> Telescopes(reports, base, sizeAtClear))
      && (!registered ==> reports == [])
    }

    /** Nothing is waiting to be reported. */
    ghost predicate Settled()
      reads this
    {
      nAdd == 0 && nDel == 0
    }

    constructor ()
      ensures Ok(0) && Settled() && !registered && !deferred && reports == []
    {
      nAdd, nDel := 0, 0;
      registered, deferred := false, false;
      sizeAtClear, base, reports := 0, 0, [];
    }

    /** The first callback is added while nothing waits to be reported. */
    method Register(len: nat)
      requires Ok(len) && Settled() && !registered
      modifies this
      ensures Ok(len) && Settled() && registered && base == len && reports == []
      ensures deferred == old(deferred)
    {
      registered := true;
      base := len;
    }

    method Added(len: nat, n: nat)
      requires Ok(len)
      modifies this`nAdd
      ensures Ok(len + n) && nAdd == old(nAdd) + n
    {
      nAdd := nAdd + n;
    }

    method Deleted(len: nat, n: nat)
      requires Ok(len) && n <= len
      modifies this`nDel
      ensures Ok(len - n) && nDel == old(nDel) + n
    {
      nDel := nDel + n;
    }

    /** `evbuffer_run_callbacks`: the report made, if any.  Immediate callbacks of a deferred
        buffer see the counters but leave them for the deferred ones. */
    method Run(len: nat, runningDeferred: bool) returns (made: bool, info: CbInfo)
      requires Ok(len)
      modifies this
      ensures Ok(len) && registered == old(registered) && deferred == old(deferred) && base == old(base)
      ensures made <==> old(registered && !Settled())
      ensures made ==> info.origSize == old(sizeAtClear) && info.NewSize() == len
      ensures made ==> info.nAdded == old(nAdd) && info.nDeleted == old(nDel)
      ensures old(registered && deferred) && !runningDeferred ==>
                nAdd == old(nAdd) && nDel == old(nDel) &&
                sizeAtClear == old(sizeAtClear) && reports == old(reports)
      ensures !old(registered && deferred) || runningDeferred ==>
                Settled() && sizeAtClear == len &&
                reports == old(reports) + if made then [info] else []
    {
      info := CbInfo(0, 0, 0);
      if !registered {
        nAdd, nDel := 0, 0;
        sizeAtClear := len;
        return false, info;
      }
      if nAdd == 0 && nDel == 0 {
        return false, info;
      }
      info := CbInfo(len + nDel - nAdd, nAdd, nDel);
      made := true;
      if runningDeferred || !deferred {
        nAdd, nDel := 0, 0;
        ghost var r := reports + [info];
        assert r[..|r| - 1] == reports;
        reports := r;
        sizeAtClear := len;
      }
    }

    /** `evbuffer_invoke_callbacks_`; scheduling the deferred callback is not part of the model. */
    method Invoke(len: nat)
      requires Ok(len)
      modifies this
      ensures Ok(len) && registered == old(registered) && deferred == old(deferred) && base == old(base)
      ensures !registered ==> Settled() && reports == old(reports)
      ensures registered && deferred ==>
                nAdd == old(nAdd) && nDel == old(nDel) && reports == old(reports)
      ensures registered && !deferred ==>
                Settled() &&
                reports == old(reports) +
                           if old(Settled()) then [] else [CbInfo(old(sizeAtClear), old(nAdd), old(nDel))]
    {
      var _, _ := Run(len, false);
    }

    /** What an operation tells the callbacks about `added` and `deleted` bytes: exactly one
        report at once, which also covers what was still unreported, or a note in the counters of
        a deferred buffer. */
    twostate predicate Told(added: nat, deleted: nat)
      reads this
    {
      && registered == old(registered) && deferred == old(deferred) && base == old(base)
      && (registered && deferred ==>
            nAdd == old(nAdd) + added && nDel == old(nDel) + deleted && reports == old(reports))
      && (!(registered && deferred) ==>
            Settled() &&
            reports == old(reports) +
                       if !registered || (old(nAdd) + added == 0 && old(nDel) + deleted == 0) then []
                       else [CbInfo(old(sizeAtClear), old(nAdd) + added, old(nDel) + deleted)])
    }
  }
}
