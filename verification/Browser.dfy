/** The script of the list page: one timer variable that event handlers clear and arm
    again, and the refetches they ask for.  It refines a client of the pipeline. */
module Browser {
  import opened Wrappers
  import opened Schema
  import opened Notify

  /** Milliseconds between the last event of a burst and the refresh. */
  const DELAY: nat := 300

  class ListPage {
    /** The list region is on the page. */
    const region: bool
    /** When the armed timer is due. */
    var timer: Option<nat>
    /** A refetch is under way; another one waits behind it. */
    var busy: bool
    var again: bool
    /** Refreshes dispatched so far. */
    var refreshes: nat
    /** When the events came that no refresh has followed yet. */
    ghost var waiting: seq<nat>

    /** The timer is armed for the last waiting event, so it covers all of them; with a list
        region the refetches are those of the client. */
    ghost predicate Valid(c: Client)
      reads this
    {
      && (timer.Some? <==> c.timer) && (timer.Some? <==> waiting != [])
      && (forall i :: 0 <= i < |waiting| ==> waiting[i] + DELAY <= timer.value)
      && (timer.Some? ==> timer.value == waiting[|waiting| - 1] + DELAY)
      && (region ==> (busy <==> !c.fetch.Idle?) && (again <==> c.queued))
    }

    constructor (region: bool, shown: Tables)
      ensures Valid(Client(Offline, false, false, Idle, shown)) && this.region == region
      ensures waiting == [] && refreshes == 0
    {
      this.region := region;
      timer, busy, again, refreshes, waiting := None, false, false, 0, [];
    }

    /** Dispatches the refresh event: a refetch starts, or waits for the one under way. */
    method Refresh(ghost c: Client)
      requires Valid(c)
      modifies this
      ensures region ==> Valid(Dispatch(c)) && refreshes == old(refreshes) + 1
      ensures !region ==> refreshes == old(refreshes)
      ensures Valid(c.(fetch := Dispatch(c).fetch, queued := Dispatch(c).queued))
      ensures timer == old(timer) && waiting == old(waiting)
    {
      if region {
        if busy {
          again := true;
        } else {
          busy := true;
        }
        refreshes := refreshes + 1;
      }
    }

    /** Clears the timer and arms it again: the event waits with those before it. */
    method OnDataChanged(now: nat, ghost id: Cid, ghost c: Client, ghost t: Tables)
      requires Valid(c) && c.conn.Open? && c.conn.q.wire > 0
      requires forall i :: 0 <= i < |waiting| ==> waiting[i] <= now
      modifies this
      ensures Valid(Moved(c, Deliver(id), t))
      ensures timer == Some(now + 300) && waiting == old(waiting) + [now] && refreshes == old(refreshes)
    {
      timer := None;
      timer := Some(now + DELAY);
      waiting := waiting + [now];
    }

    /** One refresh for the whole burst, and only after a pause of `DELAY`. */
    method OnTimer(now: nat, ghost id: Cid, ghost c: Client, ghost t: Tables)
      requires Valid(c) && timer.Some? && timer.value <= now
      modifies this
      ensures Valid(Moved(c, TimerFires(id), t))
      ensures old(waiting) != [] && waiting == [] && refreshes == old(refreshes) + if region then 1 else 0
      ensures forall i :: 0 <= i < |old(waiting)| ==> old(waiting)[i] + 300 <= now
    {
      timer := None;
      waiting := [];
      Refresh(c.(timer := false));
    }

    /** A stream that opens, or opens again, refreshes at once and leaves the timer alone. */
    method OnOpen(ghost id: Cid, ghost c: Client, ghost t: Tables)
      requires Valid(c) && c.conn.Subscribed?
      modifies this
      ensures Valid(Moved(c, StreamOpens(id), t))
      ensures waiting == old(waiting) && refreshes == old(refreshes) + if region then 1 else 0
    {
      Refresh(c.(conn := Open(c.conn.q)));
    }

    /** A refetch has been rendered; the one that waited behind it starts. */
    method OnRendered(ghost id: Cid, ghost c: Client, ghost t: Tables)
      requires Valid(c) && c.fetch.GotAll?
      modifies this
      ensures Valid(Moved(c, Render(id), t)) && waiting == old(waiting) && refreshes == old(refreshes)
    {
      busy := again;
      again := false;
    }
  }
}
