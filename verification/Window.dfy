/** The per-connection send window (protocol/star/window.go): its critical sections and the class
    that holds them. */
module Window {

  const DEFAULT_STREAM_WINDOW := 0x4_0000

  type Chan = nat

  function Min64(a: int, b: int): int {
    if a < b then a else b
  }

  // ---------- the critical sections ----------

  datatype Win = Win(outstanding: int, limit: int, closed: bool, notify: seq<Chan>)
  {
    /** There is room for the next chunk of an Acquire that still wants n. */
    predicate Fits(n: int) {
      outstanding + Min64(n, limit) <= limit
    }

    predicate Valid() {
      0 < limit && outstanding <= limit && (closed ==> notify == [])
    }
  }

  datatype Turn = WasClosed | Took(take: int) | MustWait

  /** One locked section of Acquire; ch is the channel it would wait on. */
  function AcquireTurn(w: Win, n: int, ch: Chan): (Win, Turn) {
    if w.closed then (w, WasClosed)
    else if w.Fits(n) then (w.(outstanding := w.outstanding + Min64(n, w.limit)), Took(Min64(n, w.limit)))
    else (w.(notify := w.notify + [ch]), MustWait)
  }

  function ReleaseSection(w: Win, n: int): Win {
    w.(outstanding := w.outstanding - n, notify := [])
  }

  function CloseSection(w: Win): Win {
    w.(closed := true, notify := [])
  }

  class SendWindow {
    var outstanding: int
    const limit: int
    var closed: bool
    var notify: seq<Chan>

    function View(): Win
      reads this
    {
      Win(outstanding, limit, closed, notify)
    }

    constructor (limit: int)
      requires 0 < limit
      ensures View() == Win(0, limit, false, []) && View().Valid()
    {
      this.limit := limit;
      outstanding, closed, notify := 0, false, [];
    }

    method AcquireSection(n: int, ch: Chan) returns (r: Turn)
      requires View().Valid() && 0 <= n
      modifies this
      ensures (View(), r) == AcquireTurn(old(View()), n, ch)
      ensures View().Valid()
      ensures r.Took? ==> 0 <= r.take <= n && outstanding == old(outstanding) + r.take <= limit
      ensures r.MustWait? <==> !old(closed) && limit < old(outstanding) + Min64(n, limit)
    {
      if closed {
        return WasClosed;
      }
      if outstanding + Min64(n, limit) <= limit {
        var take := Min64(n, limit);
        outstanding := outstanding + take;
        return Took(take);
      }
      notify := notify + [ch];
      return MustWait;
    }

    /** Release up to the unlock; the caller then signals the returned waiters. */
    method Release(n: int) returns (waiters: seq<Chan>)
      requires View().Valid() && 0 <= n
      modifies this
      ensures View() == ReleaseSection(old(View()), n) && waiters == old(notify)
      ensures View().Valid()
    {
      outstanding := outstanding - n;
      waiters := notify;
      notify := [];
    }

    method Close() returns (waiters: seq<Chan>)
      requires View().Valid()
      modifies this
      ensures View() == CloseSection(old(View())) && waiters == old(notify)
      ensures View().Valid()
    {
      closed := true;
      waiters := notify;
      notify := [];
    }
  }
}
