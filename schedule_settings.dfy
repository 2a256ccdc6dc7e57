/**
 * The weekly call-schedule editor: a table from weekday id to the list of call
 * slots on that day, edited through a modal sheet and persisted under
 * `callSchedules`.
 */
module ScheduleSettings {
  import opened Wrappers
  import opened Text
  import opened Sorting

  /** One scheduled call: its kind (`normal` or `roleplay`) and its `HH:MM` time. */
  datatype Item = Item(kind: string, time: string)

  const DefaultKind := "normal"
  const DefaultTime := "19:00"

  /** The comparator of the day's sort: ascending by time string. */
  predicate ByTime(a: Item, b: Item) {
    StrLe(a.time, b.time)
  }

  lemma ByTimeIsTotalPreorder()
    ensures TotalPreorder(ByTime)
  {
    forall a: Item, b: Item ensures ByTime(a, b) || ByTime(b, a) {
      StrLeTotal(a.time, b.time);
    }
    forall a: Item, b: Item, c: Item | ByTime(a, b) && ByTime(b, c) ensures ByTime(a, c) {
      StrLeTrans(a.time, b.time, c.time);
    }
  }

  /** The day's list before sorting: the item appended (add mode) or written over slot `index` (edit mode). */
  function Placed(list: seq<Item>, item: Item, index: Option<nat>): (r: seq<Item>)
    requires index.Some? ==> index.value < |list|
    ensures index.None? ==> |r| == |list| + 1 && r[|list|] == item && r[..|list|] == list
    ensures index.Some? ==> (|r| == |list| && r[index.value] == item
                             && forall k :: 0 <= k < |list| && k != index.value ==> r[k] == list[k])
  {
    if index.None? then list + [item] else list[index.value := item]
  }

  /** The day's list after a save. */
  function Saved(list: seq<Item>, item: Item, index: Option<nat>): seq<Item>
    requires index.Some? ==> index.value < |list|
  {
    Sort(Placed(list, item, index), ByTime)
  }

  /** A save leaves the day sorted by time and holding exactly the placed items. */
  lemma SavedIsSortedPlacement(list: seq<Item>, item: Item, index: Option<nat>)
    requires index.Some? ==> index.value < |list|
    ensures Sorted(Saved(list, item, index), ByTime)
    ensures multiset(Saved(list, item, index)) == multiset(Placed(list, item, index))
    ensures index.None? ==> multiset(Saved(list, item, index)) == multiset(list) + multiset{item}
    ensures index.Some? ==> multiset(Saved(list, item, index)) + multiset{list[index.value]}
                              == multiset(list) + multiset{item}
  {
    var placed := Placed(list, item, index);
    ByTimeIsTotalPreorder();
    SortSorted(placed, ByTime);
    if index.Some? {
      var i := index.value;
      var before, after := list[..i], list[i + 1..];
      assert list == before + [list[i]] + after;
      assert placed == before + [item] + after;
      assert multiset(list) == multiset(before) + multiset{list[i]} + multiset(after);
      assert multiset(placed) == multiset(before) + multiset{item} + multiset(after);
    } else {
      assert placed == list + [item];
    }
  }

  /** Adding a slot no earlier than the rest of an ordered day leaves it at the end. */
  lemma SaveInOrderAppends(list: seq<Item>, item: Item)
    requires Sorted(list + [item], ByTime)
    ensures Saved(list, item, None) == list + [item]
  {
    ByTimeIsTotalPreorder();
    SortOfSorted(list + [item], ByTime);
  }

  /** `splice(index, 1)`: the list without slot `index`. */
  function Removed(list: seq<Item>, index: nat): (r: seq<Item>)
    requires index < |list|
    ensures |r| == |list| - 1
    ensures multiset(r) + multiset{list[index]} == multiset(list)
    ensures r[..index] == list[..index] && r[index..] == list[index + 1..]
  {
    assert list == list[..index] + [list[index]] + list[index + 1..];
    list[..index] + list[index + 1..]
  }

  /** The table after deleting slot `index` of `day`: the day's key goes when its list becomes empty. */
  function AfterDelete(table: map<string, seq<Item>>, day: string, index: nat): (r: map<string, seq<Item>>)
    requires day in table && index < |table[day]|
    ensures forall d :: d != day ==> (d in r <==> d in table) && (d in r ==> r[d] == table[d])
    ensures day in r <==> |table[day]| > 1
    ensures day in r ==> r[day] == Removed(table[day], index)
  {
    var rest := Removed(table[day], index);
    if |rest| == 0 then table - {day} else table[day := rest]
  }

  /** The object key a JavaScript `null` day coerces to. */
  function DayKey(day: Option<string>): string {
    day.GetOr("null")
  }

  class Editor {
    var schedules: map<string, seq<Item>>
    var stored: map<string, seq<Item>>
    var showModal: bool
    var editingDay: Option<string>
    var editingIndex: Option<nat>
    var selectedType: string
    var selectedTime: string

    /** While the sheet is open in edit mode, it points at an existing slot. */
    predicate Valid()
      reads this
    {
      showModal && editingIndex.Some? ==>
        DayKey(editingDay) in schedules && editingIndex.value < |schedules[DayKey(editingDay)]|
    }

    /** The page mounts with the table read from storage (`{}` when missing or unparsable). */
    constructor (saved: map<string, seq<Item>>)
      ensures Valid()
      ensures schedules == saved && stored == saved
      ensures !showModal && editingDay.None? && editingIndex.None?
      ensures selectedType == DefaultKind && selectedTime == DefaultTime
    {
      schedules := saved;
      stored := saved;
      showModal := false;
      editingDay := None;
      editingIndex := None;
      selectedType := DefaultKind;
      selectedTime := DefaultTime;
    }

    method OpenAddModal(day: string)
      modifies this
      ensures Valid()
      ensures editingDay == Some(day) && editingIndex.None? && showModal
      ensures selectedType == DefaultKind && selectedTime == DefaultTime
      ensures schedules == old(schedules) && stored == old(stored)
    {
      editingDay := Some(day);
      editingIndex := None;
      selectedType := DefaultKind;
      selectedTime := DefaultTime;
      showModal := true;
    }

    /** Opens the sheet on an existing slot, and does nothing when there is no slot at `index`. */
    method OpenEditModal(day: string, index: int)
      requires Valid()
      modifies this
      ensures Valid()
      ensures schedules == old(schedules) && stored == old(stored)
      ensures (day in schedules && 0 <= index < |schedules[day]|) ==>
        showModal && editingDay == Some(day) && editingIndex == Some(index as nat)
        && selectedType == schedules[day][index].kind && selectedTime == schedules[day][index].time
      ensures !(day in schedules && 0 <= index < |schedules[day]|) ==>
        showModal == old(showModal) && editingDay == old(editingDay) && editingIndex == old(editingIndex)
        && selectedType == old(selectedType) && selectedTime == old(selectedTime)
    {
      if day in schedules && 0 <= index < |schedules[day]| {
        var slot := schedules[day][index];
        editingDay := Some(day);
        editingIndex := Some(index as nat);
        selectedType := slot.kind;
        selectedTime := slot.time;
        showModal := true;
      }
    }

    method SelectType(kind: string)
      modifies this
      ensures selectedType == kind
      ensures schedules == old(schedules) && showModal == old(showModal) && selectedTime == old(selectedTime)
      ensures editingDay == old(editingDay) && editingIndex == old(editingIndex) && stored == old(stored)
    {
      selectedType := kind;
    }

    method SelectTime(time: string)
      modifies this
      ensures selectedTime == time
      ensures schedules == old(schedules) && showModal == old(showModal) && selectedType == old(selectedType)
      ensures editingDay == old(editingDay) && editingIndex == old(editingIndex) && stored == old(stored)
    {
      selectedTime := time;
    }

    method CloseModal()
      modifies this
      ensures Valid() && !showModal
      ensures schedules == old(schedules) && stored == old(stored)
      ensures editingDay == old(editingDay) && editingIndex == old(editingIndex)
    {
      showModal := false;
    }

    /**
     * The save button: writes the selected slot into the edited day (creating
     * the day's list when missing), sorts that day by time, persists the table
     * and closes the sheet.
     */
    method HandleSave()
      requires Valid() && showModal
      modifies this
      ensures Valid() && !showModal
      ensures var day := DayKey(old(editingDay));
        var before := if day in old(schedules) then old(schedules)[day] else [];
        schedules == old(schedules)[day := Saved(before, Item(old(selectedType), old(selectedTime)), old(editingIndex))]
      ensures stored == schedules
      ensures editingDay == old(editingDay) && editingIndex == old(editingIndex)
    {
      var day := DayKey(editingDay);
      var before := if day in schedules then schedules[day] else [];
      var list := Saved(before, Item(selectedType, selectedTime), editingIndex);
      schedules := schedules[day := list];
      stored := schedules;
      showModal := false;
    }

    /**
     * The delete button: outside edit mode nothing happens; otherwise the slot is
     * removed, an emptied day is dropped, the table is persisted and the sheet closes.
     */
    method HandleDelete()
      requires Valid() && showModal
      modifies this
      ensures Valid()
      ensures old(editingIndex).None? ==>
        schedules == old(schedules) && stored == old(stored) && showModal
      ensures old(editingIndex).Some? ==>
        schedules == AfterDelete(old(schedules), DayKey(old(editingDay)), old(editingIndex).value)
        && stored == schedules && !showModal
      ensures editingDay == old(editingDay) && editingIndex == old(editingIndex)
    {
      if editingIndex.None? {
        return;
      }
      schedules := AfterDelete(schedules, DayKey(editingDay), editingIndex.value);
      stored := schedules;
      showModal := false;
    }
  }
}
