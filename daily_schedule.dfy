/**
 * The "today's schedule" card: a list of the day's events kept under a
 * `YYYY-MM-DD` key in the `dailyEvents` storage table, with stale days purged
 * on every save.
 */
module DailySchedule {
  import opened Wrappers
  import opened Text
  import opened Sorting
  import opened ClockTime
  import Helpers

  datatype Event = Event(id: string, time: string, title: string, kind: string, isEnglish: bool)

  /** The add form (`newEvent`). */
  datatype Draft = Draft(time: string, title: string, kind: string, isEnglish: bool)

  const EmptyDraft := Draft("09:00", "", "meeting", false)

  /** One of the preset buttons: the event type it sets and the title it suggests. */
  datatype Preset = Preset(kind: string, caption: string)

  /** The storage key of a day: year as written, month and day padded to two digits. */
  function TodayKey(year: nat, month: nat, day: nat): string {
    NatToString(year) + "-" + PadStart2(NatToString(month)) + "-" + PadStart2(NatToString(day))
  }

  /** The key splits on `-` into the year as written and the two-digit month and day, which read back as the date. */
  lemma TodayKeyFields(year: nat, month: nat, day: nat)
    requires month < 100 && day < 100
    ensures Split(TodayKey(year, month, day), '-') == [NatToString(year), Pad2(month), Pad2(day)]
  {
    Helpers.PadStartOfNat(month);
    Helpers.PadStartOfNat(day);
    var y, m, d := NatToString(year), Pad2(month), Pad2(day);
    DigitsHaveNoDash(y);
    DigitsHaveNoDash(m);
    DigitsHaveNoDash(d);
    assert TodayKey(year, month, day) == y + ['-'] + m + ['-'] + d;
    SplitThree(y, m, d, '-');
  }

  lemma DigitsHaveNoDash(s: string)
    requires forall i :: 0 <= i < |s| ==> IsDigit(s[i])
    ensures '-' !in s
  {
  }

  predicate ByTime(a: Event, b: Event) {
    StrLe(a.time, b.time)
  }

  lemma ByTimeIsTotalPreorder()
    ensures TotalPreorder(ByTime)
  {
    forall a: Event, b: Event ensures ByTime(a, b) || ByTime(b, a) {
      StrLeTotal(a.time, b.time);
    }
    forall a: Event, b: Event, c: Event | ByTime(a, b) && ByTime(b, c) ensures ByTime(a, c) {
      StrLeTrans(a.time, b.time, c.time);
    }
  }

  /** A date key survives the purge unless it parses to an instant before the cut-off (an invalid date never compares as earlier). */
  predicate Keep(key: string, cutoff: int, instantOf: string -> Option<int>) {
    !(instantOf(key).Some? && instantOf(key).value < cutoff)
  }

  /**
   * The table after a save of `list` under `todayKey`: every date that is
   * today's or was stored stays exactly when it is not stale; the other
   * dates keep their lists, and today's holds `list`.
   */
  ghost predicate SavedAs(before: map<string, seq<Event>>, after: map<string, seq<Event>>, todayKey: string,
                          list: seq<Event>, cutoff: int, instantOf: string -> Option<int>) {
    (forall k :: k in after <==> ((k == todayKey || k in before) && Keep(k, cutoff, instantOf)))
    && (forall k :: k in after && k != todayKey ==> after[k] == before[k])
    && (todayKey in after ==> after[todayKey] == list)
  }

  /** The `forEach` over the table's keys that deletes every stale date. */
  method Purge(all: map<string, seq<Event>>, cutoff: int, instantOf: string -> Option<int>)
    returns (kept: map<string, seq<Event>>)
    ensures forall k :: k in kept <==> (k in all && Keep(k, cutoff, instantOf))
    ensures forall k :: k in kept ==> kept[k] == all[k]
  {
    kept := all;
    var todo := all.Keys;
    while todo != {}
      invariant todo <= all.Keys
      invariant forall k :: k in kept <==> (k in all && (k in todo || Keep(k, cutoff, instantOf)))
      invariant forall k :: k in kept ==> kept[k] == all[k]
      decreases |todo|
    {
      var key :| key in todo;
      if !Keep(key, cutoff, instantOf) {
        kept := kept - {key};
      }
      todo := todo - {key};
    }
  }

  /** `events.filter(e => e.id !== eventId)`. */
  function WithoutId(events: seq<Event>, id: string): (r: seq<Event>)
    ensures forall e :: e in r <==> e in events && e.id != id
    ensures |r| <= |events|
  {
    if events == [] then []
    else if events[0].id == id then WithoutId(events[1..], id)
    else [events[0]] + WithoutId(events[1..], id)
  }

  /** Deleting an id that is not on the list changes nothing. */
  lemma {:induction false} WithoutAbsentId(events: seq<Event>, id: string)
    requires forall e :: e in events ==> e.id != id
    ensures WithoutId(events, id) == events
  {
    if events != [] {
      assert events == [events[0]] + events[1..];
      WithoutAbsentId(events[1..], id);
    }
  }

  /** Deleting removes exactly the events carrying the id, keeping the others in order. */
  lemma {:induction false} WithoutIdCount(events: seq<Event>, id: string)
    ensures |WithoutId(events, id)| == |events| - Carrying(events, id)
  {
    if events != [] {
      WithoutIdCount(events[1..], id);
    }
  }

  function Carrying(events: seq<Event>, id: string): nat {
    if events == [] then 0 else (if events[0].id == id then 1 else 0) + Carrying(events[1..], id)
  }

  function Flip(e: Event, id: string): Event {
    if e.id == id then e.(isEnglish := !e.isEnglish) else e
  }

  /** `events.map(e => e.id === eventId ? {...e, isEnglish: !e.isEnglish} : e)`. */
  function Toggled(events: seq<Event>, id: string): (r: seq<Event>)
    ensures |r| == |events|
    ensures forall k :: 0 <= k < |events| ==> r[k] == Flip(events[k], id)
  {
    seq(|events|, k requires 0 <= k < |events| => Flip(events[k], id))
  }

  /** Only the matching events change, and only in their flag; toggling twice restores the list. */
  lemma ToggleProperties(events: seq<Event>, id: string)
    ensures forall k :: 0 <= k < |events| && events[k].id != id ==> Toggled(events, id)[k] == events[k]
    ensures forall k :: 0 <= k < |events| && events[k].id == id ==>
      Toggled(events, id)[k].isEnglish == !events[k].isEnglish
      && Toggled(events, id)[k].(isEnglish := events[k].isEnglish) == events[k]
    ensures Toggled(Toggled(events, id), id) == events
  {
  }

  /** The event a valid add builds: the draft with a trimmed title and an id from the clock. */
  function NewEvent(d: Draft, now: nat): (e: Event)
    ensures e.title == Trim(d.title) && e.time == d.time && e.kind == d.kind && e.isEnglish == d.isEnglish
    ensures e.id == NatToString(now)
  {
    Event(NatToString(now), d.time, Trim(d.title), d.kind, d.isEnglish)
  }

  /** `handlePresetSelect`: the preset's type, and its caption only when the title is still empty. */
  function WithPreset(d: Draft, p: Preset): (r: Draft)
    ensures r.kind == p.kind && r.time == d.time && r.isEnglish == d.isEnglish
    ensures d.title != "" ==> r.title == d.title
    ensures d.title == "" ==> r.title == p.caption
  {
    d.(kind := p.kind, title := if d.title != "" then d.title else p.caption)
  }

  const Pm := "오후"
  const Am := "오전"

  /** `formatTime`: `HH:MM` as a Korean 12-hour time; a `NaN` hour is shown as 오전 12. */
  function FormatTime(time: string): (r: string)
  {
    var parts := Split(time, ':');
    var minutes := if |parts| >= 2 then parts[1] else "undefined";
    var hour := ParseInt(parts[0]);
    var ampm := if hour.Some? && hour.value >= 12 then Pm else Am;
    var hour12 := if hour.None? || Helpers.JsRem(hour.value, 12) == 0 then 12 else Helpers.JsRem(hour.value, 12);
    ampm + " " + IntToString(hour12) + ":" + minutes
  }

  /** A well-formed time shows 오후 exactly from noon, the hour on the 12-hour clock (0 as 12), and the minutes as written. */
  lemma FormatTimeOfPadded(h: nat, m: nat)
    requires h < 24 && m < 60
    ensures FormatTime(Pad2(h) + ":" + Pad2(m))
      == (if h >= 12 then Pm else Am) + " " + NatToString(if h % 12 == 0 then 12 else h % 12) + ":" + Pad2(m)
  {
    assert ':' !in Pad2(h) && ':' !in Pad2(m);
    SplitCons(Pad2(h), ':', Pad2(m));
    assert Split(Pad2(h) + ":" + Pad2(m), ':') == [Pad2(h), Pad2(m)];
    ParseIntOfDigits(Pad2(h));
  }

  class Planner {
    /** The list shown, kept sorted by time. */
    var events: seq<Event>
    /** The `dailyEvents` storage entry. */
    var stored: Option<Helpers.Entry<map<string, seq<Event>>>>
    var draft: Draft
    var showAddForm: bool

    /** The stored table, or `{}` when missing or unparsable. */
    function Table(): map<string, seq<Event>>
      reads this`stored
    {
      if stored.Some? && stored.value.Parsed? then stored.value.value else map[]
    }

    /** `loadTodayEvents` on mount: today's stored list (none gives `[]`), sorted by time. */
    constructor (saved: Option<Helpers.Entry<map<string, seq<Event>>>>, todayKey: string)
      ensures stored == saved && draft == EmptyDraft && !showAddForm
      ensures events == Sort(if todayKey in Table() then Table()[todayKey] else [], ByTime)
    {
      stored := saved;
      draft := EmptyDraft;
      showAddForm := false;
      var table := if saved.Some? && saved.value.Parsed? then saved.value.value else map[];
      events := Sort(if todayKey in table then table[todayKey] else [], ByTime);
    }

    /**
     * `saveEvents`: today's key takes the new list, stale dates are dropped, the
     * table is written back (with the list in the order given, as serialisation
     * precedes the in-place sort), and the shown list is the sorted one.
     */
    method SaveEvents(newEvents: seq<Event>, todayKey: string, cutoff: int, instantOf: string -> Option<int>)
      modifies this
      ensures events == Sort(newEvents, ByTime)
      ensures stored.Some? && stored.value.Parsed?
      ensures SavedAs(old(Table()), Table(), todayKey, newEvents, cutoff, instantOf)
      ensures todayKey in Table() <==> Keep(todayKey, cutoff, instantOf)
      ensures draft == old(draft) && showAddForm == old(showAddForm)
    {
      var all := Table()[todayKey := newEvents];
      var kept := Purge(all, cutoff, instantOf);
      stored := Some(Helpers.Parsed(kept));
      events := Sort(newEvents, ByTime);
    }

    /** Adding: a blank title is refused; otherwise the trimmed event is appended and saved, and the form resets and closes. */
    method HandleAddEvent(now: nat, todayKey: string, cutoff: int, instantOf: string -> Option<int>)
      returns (added: bool)
      modifies this
      ensures added <==> !AllSpace(old(draft).title)
      ensures !added ==> (events == old(events) && stored == old(stored) && draft == old(draft)
                          && showAddForm == old(showAddForm))
      ensures added ==> (events == Sort(old(events) + [NewEvent(old(draft), now)], ByTime)
                         && draft == EmptyDraft && !showAddForm)
      ensures added ==> stored.Some? && stored.value.Parsed?
      ensures added ==> SavedAs(old(Table()), Table(), todayKey, old(events) + [NewEvent(old(draft), now)], cutoff, instantOf)
      ensures added ==> (todayKey in Table() <==> Keep(todayKey, cutoff, instantOf))
    {
      if Trim(draft.title) == [] {
        return false;
      }
      AddAndSave(NewEvent(draft, now), todayKey, cutoff, instantOf);
      added := true;
    }

    /** The accepted half of `handleAddEvent`: `e` appended and saved, then the form reset and closed. */
    method AddAndSave(e: Event, todayKey: string, cutoff: int, instantOf: string -> Option<int>)
      modifies this
      ensures events == Sort(old(events) + [e], ByTime) && draft == EmptyDraft && !showAddForm
      ensures stored.Some? && stored.value.Parsed?
      ensures SavedAs(old(Table()), Table(), todayKey, old(events) + [e], cutoff, instantOf)
      ensures todayKey in Table() <==> Keep(todayKey, cutoff, instantOf)
    {
      SaveEvents(events + [e], todayKey, cutoff, instantOf);
      draft := EmptyDraft;
      showAddForm := false;
    }

    /** Deleting: today's list loses every event with this id and is saved. */
    method HandleDeleteEvent(id: string, todayKey: string, cutoff: int, instantOf: string -> Option<int>)
      modifies this
      ensures events == Sort(WithoutId(old(events), id), ByTime)
      ensures stored.Some? && stored.value.Parsed?
      ensures SavedAs(old(Table()), Table(), todayKey, WithoutId(old(events), id), cutoff, instantOf)
      ensures todayKey in Table() <==> Keep(todayKey, cutoff, instantOf)
      ensures draft == old(draft) && showAddForm == old(showAddForm)
    {
      SaveEvents(WithoutId(events, id), todayKey, cutoff, instantOf);
    }

    /** The English toggle: the events with this id flip their `isEnglish` flag and the list is saved. */
    method ToggleEnglish(id: string, todayKey: string, cutoff: int, instantOf: string -> Option<int>)
      modifies this
      ensures events == Sort(Toggled(old(events), id), ByTime)
      ensures stored.Some? && stored.value.Parsed?
      ensures SavedAs(old(Table()), Table(), todayKey, Toggled(old(events), id), cutoff, instantOf)
      ensures todayKey in Table() <==> Keep(todayKey, cutoff, instantOf)
      ensures draft == old(draft) && showAddForm == old(showAddForm)
    {
      SaveEvents(Toggled(events, id), todayKey, cutoff, instantOf);
    }

    method HandlePresetSelect(p: Preset)
      modifies this
      ensures draft == WithPreset(old(draft), p)
      ensures events == old(events) && stored == old(stored) && showAddForm == old(showAddForm)
    {
      draft := WithPreset(draft, p);
    }
  }

  /** The shown list is always in time order and holds exactly the saved events. */
  lemma ShownIsSortedSaved(newEvents: seq<Event>)
    ensures Sorted(Sort(newEvents, ByTime), ByTime)
    ensures multiset(Sort(newEvents, ByTime)) == multiset(newEvents)
  {
    ByTimeIsTotalPreorder();
    SortSorted(newEvents, ByTime);
  }
}
