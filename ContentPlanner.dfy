/**
 * The content planner (src/components/ContentPlanner.tsx): a list of planned
 * posts, newest first, with a status drawn from four stages. Adding prepends
 * a draft built from the form, a status change maps over the list, a delete
 * filters it, and the metrics are counts over it. The component's state is
 * the class `Planner`; its handlers apply the list functions below.
 */
module ContentPlanner {
  import opened Wrappers

  /** The four stages; the type itself keeps every status one of them. */
  datatype Status = Draft | Rendered | Scheduled | Posted

  /** `scheduleAt` and `notes` are optional in stored entries. */
  datatype PlannedPost = PlannedPost(
    id: string, idea: string, hook: string, cta: string, status: Status,
    scheduleAt: Option<string>, notes: Option<string>)

  datatype PlannerForm = PlannerForm(idea: string, hook: string, cta: string, scheduleAt: string, notes: string)

  /**
   * The projected cadence: while some entry is scheduled, the posts per day
   * over a week in tenths (shown as `tenths / 10` followed by "/day");
   * otherwise the prompt "Plan more drops".
   */
  datatype Cadence = PlanMoreDrops | PerDay(tenths: nat)

  datatype Metrics = Metrics(total: nat, scheduled: nat, posted: nat, cadence: Cadence)

  /** An empty form; `nextSlot` is the six-hours-ahead slot the clock would give. */
  function DefaultForm(nextSlot: string): (f: PlannerForm)
    ensures f.idea == [] && f.hook == [] && f.cta == [] && f.notes == []
    ensures f.scheduleAt == nextSlot
  {
    PlannerForm("", "", "", nextSlot, "")
  }

  /** The entry `handleSubmit` builds: a draft carrying the form's fields under a new id. */
  function NewEntry(id: string, form: PlannerForm): (e: PlannedPost)
    ensures e.status == Draft && e.id == id
    ensures e.idea == form.idea && e.hook == form.hook && e.cta == form.cta
    ensures e.scheduleAt == Some(form.scheduleAt) && e.notes == Some(form.notes)
  {
    PlannedPost(id, form.idea, form.hook, form.cta, Draft, Some(form.scheduleAt), Some(form.notes))
  }

  /** The ids of the entries, in list order. */
  function Ids(items: seq<PlannedPost>): (r: seq<string>)
    ensures |r| == |items| && forall i :: 0 <= i < |items| ==> r[i] == items[i].id
  {
    if items == [] then [] else [items[0].id] + Ids(items[1..])
  }

  /** No two entries share an id. */
  predicate UniqueIds(items: seq<PlannedPost>) {
    forall i, j :: 0 <= i < j < |items| ==> items[i].id != items[j].id
  }

  // ---------------------------------------------------------------------
  // The list transformations behind the handlers
  // ---------------------------------------------------------------------

  /** `[entry, ...prev]`. */
  function AddEntry(items: seq<PlannedPost>, entry: PlannedPost): (r: seq<PlannedPost>)
    ensures |r| == |items| + 1 && r[0] == entry && r[1..] == items
  {
    [entry] + items
  }

  /** `prev.map(item => item.id === id ? { ...item, status } : item)`. */
  function SetStatus(items: seq<PlannedPost>, id: string, status: Status): (r: seq<PlannedPost>)
    ensures |r| == |items|
    ensures forall i :: 0 <= i < |items| && items[i].id == id ==> r[i] == items[i].(status := status)
    ensures forall i :: 0 <= i < |items| && items[i].id != id ==> r[i] == items[i]
  {
    if items == [] then []
    else
      var head := if items[0].id == id then items[0].(status := status) else items[0];
      [head] + SetStatus(items[1..], id, status)
  }

  /** `prev.filter(item => item.id !== id)`. */
  function RemoveId(items: seq<PlannedPost>, id: string): (r: seq<PlannedPost>)
    ensures |r| <= |items|
    ensures forall x :: x in r <==> x in items && x.id != id
    ensures (forall k :: 0 <= k < |items| ==> items[k].id != id) ==> r == items
  {
    if items == [] then []
    else if items[0].id == id then RemoveId(items[1..], id)
    else [items[0]] + RemoveId(items[1..], id)
  }

  /** How many entries have status `s`: `items.filter(item => item.status === s).length`. */
  function CountStatus(items: seq<PlannedPost>, s: Status): (n: nat)
    ensures n <= |items|
  {
    if items == [] then 0
    else (if items[0].status == s then 1 else 0) + CountStatus(items[1..], s)
  }

  /** How many entries carry id `id`. */
  function CountId(items: seq<PlannedPost>, id: string): (n: nat)
    ensures n <= |items|
  {
    if items == [] then 0
    else (if items[0].id == id then 1 else 0) + CountId(items[1..], id)
  }

  /** `item.scheduleAt` is truthy: present and not empty. */
  predicate HasSchedule(p: PlannedPost) {
    p.scheduleAt.Some? && p.scheduleAt.value != ""
  }

  /** `items.some(item => item.scheduleAt)`. */
  predicate AnyScheduled(items: seq<PlannedPost>) {
    exists k :: 0 <= k < |items| && HasSchedule(items[k])
  }

  /**
   * `Math.round((total / 7) * 10)`: the weekly rate in tenths of a post per
   * day, rounded to the nearest tenth. The exact value is never halfway
   * between two tenths, so the rounding direction of ties does not arise.
   */
  function RateTenths(total: nat): (r: nat)
    ensures -7 < 14 * r - 20 * total < 7
  {
    var r := (20 * total + 7) / 14;
    assert 14 * r <= 20 * total + 7 < 14 * r + 14;
    assert 14 * r - 20 * total != 7 by {
      assert (14 * r - 20 * total) % 2 == 0 by {
        assert 14 * r - 20 * total == 2 * (7 * r - 10 * total);
      }
    }
    r
  }

  /** The four metric cards. */
  function ComputeMetrics(items: seq<PlannedPost>): (m: Metrics)
    ensures m.total == |items|
    ensures m.scheduled == CountStatus(items, Scheduled) && m.posted == CountStatus(items, Posted)
    ensures m.scheduled + m.posted <= m.total
    ensures m.cadence == PlanMoreDrops <==> items == [] || forall k :: 0 <= k < |items| ==> !HasSchedule(items[k])
    ensures m.cadence != PlanMoreDrops ==> m.cadence == PerDay(RateTenths(|items|))
  {
    ScheduledPlusPosted(items);
    var total := |items|;
    var cadence := if total != 0 && AnyScheduled(items) then PerDay(RateTenths(total)) else PlanMoreDrops;
    Metrics(total, CountStatus(items, Scheduled), CountStatus(items, Posted), cadence)
  }

  // ---------------------------------------------------------------------
  // Properties of the list transformations
  // ---------------------------------------------------------------------

  /** An entry is counted as scheduled or as posted, never both. */
  lemma {:induction false} ScheduledPlusPosted(items: seq<PlannedPost>)
    ensures CountStatus(items, Scheduled) + CountStatus(items, Posted) <= |items|
  {
    if items != [] {
      ScheduledPlusPosted(items[1..]);
    }
  }

  /** A status change keeps every id in place. */
  lemma SetStatusKeepsIds(items: seq<PlannedPost>, id: string, status: Status)
    ensures Ids(SetStatus(items, id, status)) == Ids(items)
  {
  }

  /** Applying the same status change twice is applying it once. */
  lemma {:induction false} SetStatusIdempotent(items: seq<PlannedPost>, id: string, status: Status)
    ensures SetStatus(SetStatus(items, id, status), id, status) == SetStatus(items, id, status)
  {
    var once := SetStatus(items, id, status);
    var twice := SetStatus(once, id, status);
    forall i | 0 <= i < |items| ensures twice[i] == once[i] {
    }
  }

  /** A status change neither adds nor removes entries, so unique ids stay unique. */
  lemma SetStatusKeepsUnique(items: seq<PlannedPost>, id: string, status: Status)
    requires UniqueIds(items)
    ensures UniqueIds(SetStatus(items, id, status))
  {
  }

  /** A fresh id keeps ids unique after adding. */
  lemma AddKeepsUnique(items: seq<PlannedPost>, entry: PlannedPost)
    requires UniqueIds(items) && entry.id !in Ids(items)
    ensures UniqueIds(AddEntry(items, entry))
  {
    var r := AddEntry(items, entry);
    forall i, j | 0 <= i < j < |r| ensures r[i].id != r[j].id {
      if i == 0 {
        assert r[j] == items[j - 1];
        assert Ids(items)[j - 1] == r[j].id;
      }
    }
  }

  /** Deleting keeps the survivors in their relative order: it distributes over concatenation. */
  lemma {:induction false} RemoveIdAppend(a: seq<PlannedPost>, b: seq<PlannedPost>, id: string)
    ensures RemoveId(a + b, id) == RemoveId(a, id) + RemoveId(b, id)
  {
    if a == [] {
      assert a + b == b;
    } else {
      assert (a + b)[1..] == a[1..] + b;
      RemoveIdAppend(a[1..], b, id);
    }
  }

  /** Deleting drops exactly the entries carrying the id. */
  lemma {:induction false} RemoveIdLength(items: seq<PlannedPost>, id: string)
    ensures |RemoveId(items, id)| == |items| - CountId(items, id)
    ensures CountId(RemoveId(items, id), id) == 0
  {
    if items != [] {
      RemoveIdLength(items[1..], id);
    }
  }

  /** With unique ids, an id that is present is carried by exactly one entry, so a delete removes one entry. */
  lemma {:induction false} UniqueCountId(items: seq<PlannedPost>, id: string)
    requires UniqueIds(items)
    ensures CountId(items, id) == if id in Ids(items) then 1 else 0
  {
    if items != [] {
      UniqueCountId(items[1..], id);
      if items[0].id == id {
        assert id !in Ids(items[1..]) by {
          forall k | 0 <= k < |items| - 1 ensures Ids(items[1..])[k] != id {
            assert items[1..][k] == items[k + 1];
          }
        }
      }
      assert Ids(items) == [items[0].id] + Ids(items[1..]);
    }
  }

  /** Deleting keeps unique ids unique. */
  lemma {:induction false} RemoveIdKeepsUnique(items: seq<PlannedPost>, id: string)
    requires UniqueIds(items)
    ensures UniqueIds(RemoveId(items, id))
  {
    if items != [] {
      RemoveIdKeepsUnique(items[1..], id);
      var rest := RemoveId(items[1..], id);
      if items[0].id != id {
        var r := [items[0]] + rest;
        forall i, j | 0 <= i < j < |r| ensures r[i].id != r[j].id {
          if i == 0 {
            assert r[j] in rest;
            assert r[j] in items[1..];
            var k :| 0 <= k < |items[1..]| && items[1..][k] == r[j];
            assert items[k + 1] == r[j];
          }
        }
      }
    }
  }

  /** Adding a draft grows the total by one and leaves the scheduled and posted counts alone. */
  lemma AddMetrics(items: seq<PlannedPost>, id: string, form: PlannerForm)
    ensures var m := ComputeMetrics(AddEntry(items, NewEntry(id, form)));
      && m.total == |items| + 1
      && m.scheduled == CountStatus(items, Scheduled)
      && m.posted == CountStatus(items, Posted)
      && (form.scheduleAt != "" ==> m.cadence == PerDay(RateTenths(|items| + 1)))
  {
    var r := AddEntry(items, NewEntry(id, form));
    assert r[1..] == items;
    if form.scheduleAt != "" {
      assert HasSchedule(r[0]);
    }
  }

  /** Submitting the untouched form adds a draft scheduled for the next slot, so the cadence becomes a rate. */
  lemma DefaultFormScheduled(items: seq<PlannedPost>, id: string, nextSlot: string)
    requires nextSlot != ""
    ensures AnyScheduled(AddEntry(items, NewEntry(id, DefaultForm(nextSlot))))
    ensures ComputeMetrics(AddEntry(items, NewEntry(id, DefaultForm(nextSlot)))).cadence == PerDay(RateTenths(|items| + 1))
  {
    AddMetrics(items, id, DefaultForm(nextSlot));
    assert HasSchedule(AddEntry(items, NewEntry(id, DefaultForm(nextSlot)))[0]);
  }

  // ---------------------------------------------------------------------
  // The component's state
  // ---------------------------------------------------------------------

  class Planner {
    var items: seq<PlannedPost>
    var form: PlannerForm

    /** The state after mounting: the stored list (or none) and an empty form. */
    constructor (stored: seq<PlannedPost>, nextSlot: string)
      ensures items == stored && form == DefaultForm(nextSlot)
    {
      items := stored;
      form := DefaultForm(nextSlot);
    }

    /** Ids are unique, as the planner expects of its list. */
    ghost predicate Valid()
      reads this
    {
      UniqueIds(items)
    }

    /** The metric cards for the current list. */
    function CurrentMetrics(): (m: Metrics)
      reads this
      ensures m.total == |items| && m.scheduled + m.posted <= m.total
      ensures m.cadence == PlanMoreDrops <==> !AnyScheduled(items)
    {
      ComputeMetrics(items)
    }

    /** `handleSubmit`: prepend a draft built from the form, then reset the form. */
    method HandleSubmit(newId: string, nextSlot: string)
      modifies this
      ensures items == AddEntry(old(items), NewEntry(newId, old(form)))
      ensures form == DefaultForm(nextSlot)
      ensures old(Valid()) && newId !in Ids(old(items)) ==> Valid()
    {
      var entry := NewEntry(newId, form);
      if Valid() && newId !in Ids(items) {
        AddKeepsUnique(items, entry);
      }
      items := AddEntry(items, entry);
      form := DefaultForm(nextSlot);
    }

    /** `updateStatus(id, status)`: only matching entries change, and only their status. */
    method UpdateStatus(id: string, status: Status)
      modifies this`items
      ensures items == SetStatus(old(items), id, status)
      ensures old(Valid()) ==> Valid()
    {
      if Valid() {
        SetStatusKeepsUnique(items, id, status);
      }
      items := SetStatus(items, id, status);
    }

    /** `deleteEntry(id)`: every entry with the id goes, the rest stay in order. */
    method DeleteEntry(id: string)
      modifies this`items
      ensures items == RemoveId(old(items), id)
      ensures old(Valid()) ==> Valid()
      ensures old(Valid()) && id in Ids(old(items)) ==> |items| == |old(items)| - 1
    {
      RemoveIdLength(items, id);
      if Valid() {
        RemoveIdKeepsUnique(items, id);
        UniqueCountId(items, id);
      }
      items := RemoveId(items, id);
    }
  }
}
