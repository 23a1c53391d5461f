/**
 * The command palette component: how it lays out its groups and items,
 * which value each item is matched by, whether search text and selection
 * are held by the parent or by the component, what selecting an item
 * does, and when it is wrapped in a dialog. Callbacks are modelled by the
 * effects they perform.
 */
module CommandPalette {
  import opened Wrappers

  /** What a callback does: go to a route, or ask to open or close the palette. */
  datatype Effect = Navigate(path: string) | SetOpen(open: bool)

  /** An item; `action` is what its `onSelect` does (nothing when it has none). */
  datatype CommandItem = CommandItem(id: string, title: string, value: Option<string>, action: seq<Effect>)

  datatype CommandGroup = CommandGroup(title: Option<string>, items: seq<CommandItem>)

  /**
   * `allGroups`: the given groups, preceded by an untitled group holding
   * the loose `items` when there are any.
   */
  function AllGroups(groups: seq<CommandGroup>, items: seq<CommandItem>): (r: seq<CommandGroup>)
    ensures |items| == 0 ==> r == groups
    ensures |items| > 0 ==> |r| == |groups| + 1 && r[0] == CommandGroup(None, items) && r[1..] == groups
  {
    if |items| > 0 then [CommandGroup(None, items)] + groups else groups
  }

  /** Every item of every group, in order. */
  function AllItems(groups: seq<CommandGroup>): seq<CommandItem> {
    if |groups| == 0 then [] else groups[0].items + AllItems(groups[1..])
  }

  /** The palette lists the loose items first, then every group's items, and nothing else. */
  lemma AllGroupsLists(groups: seq<CommandGroup>, items: seq<CommandItem>)
    ensures AllItems(AllGroups(groups, items)) == items + AllItems(groups)
  {
    if |items| > 0 {
      var all := AllGroups(groups, items);
      assert all[0].items == items && all[1..] == groups;
    }
  }

  /** A rendered group, with the separator that closes it or not. */
  datatype GroupView = GroupView(group: CommandGroup, separated: bool)

  /** Each group in order, followed by a separator when it is not the last one. */
  function GroupViews(groups: seq<CommandGroup>): (r: seq<GroupView>)
    ensures |r| == |groups|
    ensures forall i :: 0 <= i < |groups| ==> r[i].group == groups[i]
    ensures forall i :: 0 <= i < |groups| ==> (r[i].separated <==> i < |groups| - 1)
  {
    seq(|groups|, i requires 0 <= i < |groups| => GroupView(groups[i], i < |groups| - 1))
  }

  /** The list as it appears on screen: group blocks and separators. */
  datatype Block = GroupBlock(group: CommandGroup) | SeparatorBlock

  function Blocks(views: seq<GroupView>): seq<Block> {
    if |views| == 0 then []
    else [GroupBlock(views[0].group)] + (if views[0].separated then [SeparatorBlock] else []) + Blocks(views[1..])
  }

  /**
   * Groups and separators alternate: with n groups the list has 2n - 1
   * blocks, group j at position 2j and a separator right after every
   * group but the last, so no separator comes first, last or twice in a row.
   */
  lemma {:induction false} BlocksAlternate(groups: seq<CommandGroup>)
    requires |groups| > 0
    ensures |Blocks(GroupViews(groups))| == 2 * |groups| - 1
    ensures forall j :: 0 <= j < |groups| ==> Blocks(GroupViews(groups))[2 * j] == GroupBlock(groups[j])
    ensures forall j :: 0 <= j < |groups| - 1 ==> Blocks(GroupViews(groups))[2 * j + 1] == SeparatorBlock
  {
    var views := GroupViews(groups);
    ViewsTail(groups);
    if |groups| == 1 {
      assert Blocks(views[1..]) == [];
    } else {
      BlocksAlternate(groups[1..]);
      var rest := Blocks(GroupViews(groups[1..]));
      assert Blocks(views) == [GroupBlock(groups[0]), SeparatorBlock] + rest;
      forall j | 1 <= j < |groups| ensures Blocks(views)[2 * j] == GroupBlock(groups[j]) {
        assert Blocks(views)[2 * j] == rest[2 * (j - 1)];
        assert groups[1..][j - 1] == groups[j];
      }
      forall j | 1 <= j < |groups| - 1 ensures Blocks(views)[2 * j + 1] == SeparatorBlock {
        assert Blocks(views)[2 * j + 1] == rest[2 * (j - 1) + 1];
      }
    }
  }

  /** The views after the first are the views of the remaining groups; the first is separated when more follow. */
  lemma ViewsTail(groups: seq<CommandGroup>)
    requires |groups| > 0
    ensures GroupViews(groups)[1..] == GroupViews(groups[1..])
    ensures GroupViews(groups)[0] == GroupView(groups[0], |groups| > 1)
  {
  }

  /** The value the palette matches an item by: its `value` when non-empty, else its title. */
  function ItemValue(item: CommandItem): (r: string)
    ensures item.value.Some? && item.value.value != "" ==> r == item.value.value
    ensures item.value.None? || item.value.value == "" ==> r == item.title
  {
    if item.value.Some? && item.value.value != "" then item.value.value else item.title
  }

  /** A prop the parent may hold (`Some`) or leave to the component's own state. */
  function Current(prop: Option<string>, internal: string): (r: string)
    ensures prop.Some? ==> r == prop.value
    ensures prop.None? ==> r == internal
  {
    if prop.Some? then prop.value else internal
  }

  /** `defaultValue || ""`: the component's initial selected value. */
  function InitialValue(defaultValue: Option<string>): (r: string)
    ensures defaultValue.Some? ==> r == defaultValue.value
    ensures defaultValue.None? ==> r == ""
  {
    if defaultValue.Some? then defaultValue.value else ""
  }

  /**
   * What typing (or picking) `typed` does: the parent's handler, when
   * given, is called instead of updating the component's own state.
   */
  datatype Change = Change(internal: string, shown: string, handlerCall: Option<string>)

  function OnChange(prop: Option<string>, hasHandler: bool, internal: string, typed: string): (r: Change)
    ensures r.handlerCall == if hasHandler then Some(typed) else None
    ensures r.internal == if hasHandler then internal else typed
    ensures r.shown == Current(prop, r.internal)
  {
    var internal' := if hasHandler then internal else typed;
    Change(internal', Current(prop, internal'), if hasHandler then Some(typed) else None)
  }

  /**
   * A held prop keeps showing the parent's value whatever is typed; an
   * unheld one without a handler shows what was typed; an unheld one with
   * a handler keeps showing the old internal value, since the handler is
   * called and the component's own state is not updated.
   */
  lemma ChangeShows(prop: Option<string>, hasHandler: bool, internal: string, typed: string)
    ensures prop.Some? ==> OnChange(prop, hasHandler, internal, typed).shown == prop.value
    ensures prop.None? && !hasHandler ==> OnChange(prop, hasHandler, internal, typed).shown == typed
    ensures prop.None? && hasHandler ==> OnChange(prop, hasHandler, internal, typed).shown == internal
  {
  }

  /**
   * Selecting an item: its own action, then a request to close the palette
   * when `open` is held by the parent and `onOpenChange` is given.
   */
  function SelectEffects(item: CommandItem, open: Option<bool>, hasOnOpenChange: bool): (r: seq<Effect>)
    ensures |r| == |item.action| || |r| == |item.action| + 1
    ensures r[..|item.action|] == item.action
    ensures |r| == |item.action| + 1 <==> open.Some? && hasOnOpenChange
    ensures |r| == |item.action| + 1 ==> r[|item.action|] == SetOpen(false)
  {
    item.action + if open.Some? && hasOnOpenChange then [SetOpen(false)] else []
  }

  /** Whether the palette is open after a run of effects, starting from `open`. */
  function OpenAfter(open: bool, effects: seq<Effect>): bool {
    if |effects| == 0 then open
    else if effects[|effects| - 1].SetOpen? then effects[|effects| - 1].open
    else OpenAfter(open, effects[..|effects| - 1])
  }

  /** A controlled palette with a close handler is closed after any selection. */
  lemma SelectionCloses(item: CommandItem, open: bool)
    ensures !OpenAfter(open, SelectEffects(item, Some(open), true))
  {
    var r := SelectEffects(item, Some(open), true);
    assert r[|r| - 1] == SetOpen(false);
  }

  /** The list body: the loading notice, or the group blocks. */
  datatype Listing = LoadingNotice | Listed(blocks: seq<Block>)

  /** What the component renders: its content inside a dialog that is given `open`, or the content alone. */
  datatype Rendered = InDialog(open: Option<bool>, listing: Listing) | Inline(listing: Listing)

  /**
   * The component's output: wrapped in a dialog exactly when `open` is
   * given or there is a trigger, the dialog receiving `open` as it is;
   * the loading notice while loading, otherwise the blocks of all groups.
   */
  function Render(groups: seq<CommandGroup>, items: seq<CommandItem>, loading: bool, open: Option<bool>,
                  hasTrigger: bool): (r: Rendered)
    ensures r.InDialog? <==> open.Some? || hasTrigger
    ensures r.InDialog? ==> r.open == open
    ensures r.listing.LoadingNotice? <==> loading
  {
    var listing := if loading then LoadingNotice else Listed(Blocks(GroupViews(AllGroups(groups, items))));
    if open.Some? || hasTrigger then InDialog(open, listing) else Inline(listing)
  }

  /**
   * Once loaded, the palette shows the groups of `allGroups` in order, one
   * separator between each two of them, the loose items' untitled group
   * first when there are loose items.
   */
  lemma RenderLayout(groups: seq<CommandGroup>, items: seq<CommandItem>, open: Option<bool>, hasTrigger: bool)
    requires |groups| + |items| > 0
    ensures var r := Render(groups, items, false, open, hasTrigger);
      var all := AllGroups(groups, items);
      && r.listing.Listed?
      && |r.listing.blocks| == 2 * |all| - 1
      && (forall j :: 0 <= j < |all| ==> r.listing.blocks[2 * j] == GroupBlock(all[j]))
      && (forall j :: 0 <= j < |all| - 1 ==> r.listing.blocks[2 * j + 1] == SeparatorBlock)
      && (|items| > 0 ==> r.listing.blocks[0] == GroupBlock(CommandGroup(None, items)))
  {
    BlocksAlternate(AllGroups(groups, items));
  }
}
