/**
 * The events that carry a filter's option list back to the search service
 * (src/events/ReliquaryGetFieldOptions.php,
 * src/events/ReliquaryGetAttributeOptions.php). Both hold a handled flag,
 * a type, a partial flag, the caller's hint, the options and a total. The
 * paging the option handlers share lives here too: one page of 50,
 * chosen by a numeric hint.
 */
module OptionEvents {
  import opened Optional
  import opened PhpValues
  import opened QueryBuilder

  /** One `['value' => ..., 'label' => ...]` entry of an option list; `caption` is the label. */
  datatype OptionEntry = OptionEntry(value: Value, caption: string)

  /** `$event->options`: a list of entries, or the number field's range record. */
  datatype Options =
    | Listed(entries: seq<OptionEntry>)
    | NumberRange(min: Value, max: Value, decimalPoints: Value)

  /** An element offered as an option: its id and the text shown for it. */
  datatype Item = Item(id: int, caption: string)

  /** The fields of an options event. */
  datatype OptionsState = OptionsState(handled: bool, kind: Option<string>, partial: bool, options: Options, total: int)

  /** A new event: unhandled, no type, not partial, no options, total 0. */
  const Fresh: OptionsState := OptionsState(false, None, false, Listed([]), 0)

  /** The number of options a paged handler lists at once. */
  const PageSize: int := 50

  /** An options event; `kind` is the event's `type`. */
  class OptionsEvent {
    const hint: Value
    var handled: bool
    var kind: Option<string>
    var partial: bool
    var options: Options
    var total: int

    constructor (hint: Value)
      ensures this.hint == hint && State() == Fresh
    {
      this.hint := hint;
      handled := false;
      kind := None;
      partial := false;
      options := Listed([]);
      total := 0;
    }

    function State(): OptionsState
      reads this
    {
      OptionsState(handled, kind, partial, options, total)
    }
  }

  /** `$query->offset((intval($hint) - 1) * 50)` when the hint is numeric; no offset otherwise. */
  function PageOffset(hint: Value): int
  {
    if IsNumeric(hint) then (IntVal(hint) - 1) * PageSize else 0
  }

  /** The items a paged handler lists: the page the hint picks out of everything that matches. */
  function Page(all: seq<Item>, hint: Value): seq<Item>
  {
    Window(all, PageOffset(hint), PageSize)
  }

  /** An item as an option: its id as the value and its label. */
  function ItemEntries(items: seq<Item>): (r: seq<OptionEntry>)
    ensures |r| == |items|
    ensures forall k :: 0 <= k < |items| ==> r[k] == OptionEntry(Int(items[k].id), items[k].caption)
  {
    seq(|items|, k requires 0 <= k < |items| => OptionEntry(Int(items[k].id), items[k].caption))
  }

  /** The event a paged handler leaves: the page's items, the unpaged total, and partial when there is more than one page. */
  function PagedState(kind: string, all: seq<Item>, hint: Value): OptionsState
  {
    OptionsState(true, Some(kind), |all| > PageSize, Listed(ItemEntries(Page(all, hint))), |all|)
  }

  /**
   * Paging: at most 50 items; a numeric hint `h` of at least 1 picks items
   * `50·(h−1)` to `50·h`, clipped to what matches; any other hint picks
   * the first 50.
   */
  lemma PageSound(all: seq<Item>, hint: Value)
    ensures |Page(all, hint)| <= PageSize
    ensures IsNumeric(hint) && IntVal(hint) >= 1 ==>
      Page(all, hint) == all[Min((IntVal(hint) - 1) * PageSize, |all|)..Min(IntVal(hint) * PageSize, |all|)]
    ensures !IsNumeric(hint) || IntVal(hint) <= 1 ==> Page(all, hint) == all[..Min(PageSize, |all|)]
  {
    var page := Page(all, hint);
    var offset := PageOffset(hint);
    if IsNumeric(hint) && IntVal(hint) >= 1 {
      var start := Min(offset, |all|);
      var end := Min(IntVal(hint) * PageSize, |all|);
      assert offset + PageSize == IntVal(hint) * PageSize;
      assert |page| == end - start;
      assert page == all[start..end];
    } else {
      assert offset <= 0 by {
        if IsNumeric(hint) {
          assert IntVal(hint) - 1 <= 0;
        }
      }
      assert page == all[..Min(PageSize, |all|)];
    }
  }

  /**
   * A paged list is partial exactly when more than 50 items match, on
   * every page, and its total counts every match, not the page.
   */
  lemma PagedPartial(kind: string, all: seq<Item>, hint: Value, other: Value)
    ensures PagedState(kind, all, hint).partial <==> PagedState(kind, all, hint).total > PageSize
    ensures PagedState(kind, all, hint).partial == PagedState(kind, all, other).partial
    ensures PagedState(kind, all, hint).total == |all| == PagedState(kind, all, other).total
  {
  }

  /**
   * The tail every paged handler shares: handled, the type, the unpaged
   * total, one option per item of the page in order, and `partial` when
   * the total passes 50.
   */
  method ListPage(e: OptionsEvent, kind: string, all: seq<Item>)
    requires e.State() == Fresh
    modifies e
    ensures e.State() == PagedState(kind, all, e.hint)
  {
    e.handled := true;
    e.kind := Some(kind);
    e.total := |all|;
    var items := Page(all, e.hint);
    var k := 0;
    while k < |items|
      invariant 0 <= k <= |items|
      invariant e.State() == OptionsState(true, Some(kind), false, Listed(ItemEntries(items[..k])), |all|)
    {
      assert ItemEntries(items[..k + 1]) == ItemEntries(items[..k]) + [OptionEntry(Int(items[k].id), items[k].caption)];
      e.options := Listed(e.options.entries + [OptionEntry(Int(items[k].id), items[k].caption)]);
      k := k + 1;
    }
    assert items[..k] == items;
    if e.total > PageSize {
      e.partial := true;
    }
  }
}
