/**
 * A thread's entry in the sidebar and its delete action: ask the server
 * to delete the chat, then drop the thread from the saved list and leave
 * the chat's page if it is the one shown.
 */
module SidebarThread {
  import opened Wrappers
  import opened Seqs
  import opened ClientTypes

  function NotThread(id: string): Thread -> bool {
    (t: Thread) => t.id != id
  }

  /** The saved list once the thread with `id` is dropped. */
  function WithoutThread(threads: seq<Thread>, id: string): (r: seq<Thread>)
    ensures forall t :: t in r <==> t in threads && t.id != id
  {
    Filter(threads, NotThread(id))
  }

  /** What a delete leads to: the list to save, if any, and whether to go home. */
  datatype DeleteOutcome = DeleteOutcome(saved: Option<seq<Thread>>, navigateHome: bool)

  /**
   * `handleDeleteThread`. `response` is the status the fetch resolved
   * with, or `None` when it rejected. The status is never looked at.
   */
  function DeleteThread(threads: seq<Thread>, id: string, routeId: Option<string>, response: Option<int>): (r: DeleteOutcome)
    ensures response.None? ==> r == DeleteOutcome(None, false)
    ensures response.Some? ==> r.saved == Some(WithoutThread(threads, id))
    ensures response.Some? ==> (r.navigateHome <==> routeId == Some(id))
  {
    if response.None? then DeleteOutcome(None, false)
    else DeleteOutcome(Some(WithoutThread(threads, id)), routeId == Some(id))
  }

  /**
   * After a delete the saved list has no thread with that id, keeps every
   * other thread, keeps storage order, and a second delete of the same
   * thread changes nothing more. Any two statuses lead to the same outcome.
   */
  lemma DeleteThreadSpec(threads: seq<Thread>, more: seq<Thread>, id: string, routeId: Option<string>,
                         status: int, otherStatus: int)
    ensures var saved := DeleteThread(threads, id, routeId, Some(status)).saved.value;
      && (forall t | t in saved :: t.id != id)
      && (forall t | t in threads && t.id != id :: t in saved)
      && WithoutThread(threads + more, id) == saved + WithoutThread(more, id)
      && WithoutThread(saved, id) == saved
    ensures DeleteThread(threads, id, routeId, Some(status)) == DeleteThread(threads, id, routeId, Some(otherStatus))
  {
    var saved := WithoutThread(threads, id);
    FilterAppend(threads, more, NotThread(id));
    forall i | 0 <= i < |saved| ensures NotThread(id)(saved[i]) {
      assert saved[i] in saved;
    }
    FilterKeepsAll(saved, NotThread(id));
  }
}
