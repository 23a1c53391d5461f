/**
 * The sidebar: the language toggle, the thread search, the palette built
 * from the saved threads, and the keyboard shortcut that opens it.
 */
module AppSidebar {
  import opened Wrappers
  import opened Text
  import opened Seqs
  import opened ClientTypes
  import opened CommandPalette

  /** `toggleLanguage`: French switches to "UK", any other language to French. */
  function ToggleLanguage(lang: string): (r: string)
    ensures lang == "FR" ==> r == "UK"
    ensures lang != "FR" ==> r == "FR"
  {
    if lang == "FR" then "UK" else "FR"
  }

  /** The sidebar's filter: everything for an empty search, else names containing the search. */
  function MatchesSearch(search: string): Thread -> bool {
    (t: Thread) => |search| == 0 || Contains(t.name, search)
  }

  /** The threads listed in the sidebar for a search text, in storage order. */
  function VisibleThreads(threads: seq<Thread>, search: string): (r: seq<Thread>)
    ensures forall t :: t in r <==> t in threads && (|search| == 0 || Contains(t.name, search))
  {
    Filter(threads, MatchesSearch(search))
  }

  /** With an empty search every thread is listed, in order. */
  lemma EmptySearchShowsAll(threads: seq<Thread>)
    ensures VisibleThreads(threads, "") == threads
  {
    FilterKeepsAll(threads, MatchesSearch(""));
  }

  /**
   * The search keeps the storage order: the threads listed for a list
   * made of two parts are those listed for the first part, then those
   * listed for the second; a thread is listed exactly when its name
   * contains the search as a case-sensitive substring.
   */
  lemma VisibleThreadsKeepOrder(a: seq<Thread>, b: seq<Thread>, search: string)
    ensures VisibleThreads(a + b, search) == VisibleThreads(a, search) + VisibleThreads(b, search)
    ensures |search| > 0 ==> forall t :: t in VisibleThreads(a + b, search) <==>
      t in a + b && exists i :: OccursAt(t.name, search, i)
  {
    FilterAppend(a, b, MatchesSearch(search));
  }

  /** The palette entry for a thread: its id, its name as title, and a jump to its chat that closes the palette. */
  function PaletteItem(t: Thread): (r: CommandItem)
    ensures r.id == t.id && r.title == t.name && r.value.None?
    ensures r.action == [Navigate("/chat/" + t.id), SetOpen(false)]
  {
    CommandItem(t.id, t.name, None, [Navigate("/chat/" + t.id), SetOpen(false)])
  }

  /** One palette item per saved thread, in order. */
  function PaletteItems(threads: seq<Thread>): (r: seq<CommandItem>)
    ensures |r| == |threads|
    ensures forall i :: 0 <= i < |threads| ==> r[i] == PaletteItem(threads[i])
  {
    seq(|threads|, i requires 0 <= i < |threads| => PaletteItem(threads[i]))
  }

  /**
   * The sidebar's palette, given `open` and `onOpenChange` and no groups:
   * it is a dialog, lists one item per thread in order, matches each by
   * the thread's name, and selecting the item of thread i navigates to
   * that thread's chat and leaves the palette closed.
   */
  lemma PaletteSelection(threads: seq<Thread>, open: bool, i: int)
    requires 0 <= i < |threads|
    ensures Render([], PaletteItems(threads), false, Some(open), false).InDialog?
    ensures AllItems(AllGroups([], PaletteItems(threads))) == PaletteItems(threads)
    ensures ItemValue(PaletteItems(threads)[i]) == threads[i].name
    ensures var effects := SelectEffects(PaletteItems(threads)[i], Some(open), true);
      && effects[0] == Navigate("/chat/" + threads[i].id)
      && (forall k :: 0 < k < |effects| ==> effects[k].SetOpen?)
      && !OpenAfter(open, effects)
  {
    AllGroupsLists([], PaletteItems(threads));
    assert AllItems([]) == [];
    assert PaletteItems(threads) + [] == PaletteItems(threads);
    SelectionCloses(PaletteItems(threads)[i], open);
  }

  /** The palette's open state after a key press: Cmd+K or Ctrl+K opens it, other keys leave it. */
  function AfterKeyDown(open: bool, metaKey: bool, ctrlKey: bool, key: string): (r: bool)
    ensures (metaKey || ctrlKey) && key == "k" ==> r
    ensures !((metaKey || ctrlKey) && key == "k") ==> r == open
  {
    if (metaKey || ctrlKey) && key == "k" then true else open
  }
}
