/**
 * The daily page: log a catalogue meal against today's date, delete one
 * logged entry by its position, and total today's entries. The log is the
 * date-keyed document decoded from the daily-meals file.
 */
module DailyLog {
  import opened Nutrition
  import opened Meals

  /** A calendar date as a day ordinal; it stands for the log's `Y-m-d` key. */
  type Day = int

  /** A logged occurrence: a copy of the meal's name, macros and colour at logging time. */
  datatype Entry = Entry(name: string, protein: real, carbs: real, fat: real, color: string)

  /** One date of the log: its display label and its entries in logging order. */
  datatype DayBucket = DayBucket(dateLabel: string, entries: seq<Entry>)

  const DefaultColor := "blue"

  /** The snapshot logged for a meal; the description is not copied. */
  function Snapshot(m: Meal): (e: Entry)
    ensures e.name == m.name && e.protein == m.protein && e.carbs == m.carbs && e.fat == m.fat
    ensures m.color.Some? ==> e.color == m.color.value
    ensures m.color.None? ==> e.color == DefaultColor
    ensures EntryTotals(e).kcal == Kcal(m.protein, m.carbs, m.fat)
  {
    Entry(m.name, m.protein, m.carbs, m.fat, m.color.GetOr(DefaultColor))
  }

  /** One entry's contribution to a total. */
  function EntryTotals(e: Entry): Totals {
    Totals(Kcal(e.protein, e.carbs, e.fat), e.protein, e.carbs, e.fat)
  }

  /** No macro of the entry is negative. */
  predicate NonNegative(e: Entry) {
    e.protein >= 0.0 && e.carbs >= 0.0 && e.fat >= 0.0
  }

  /** No entry of the list has a negative macro. */
  predicate AllNonNegative(entries: seq<Entry>) {
    forall i :: 0 <= i < |entries| ==> NonNegative(entries[i])
  }

  /**
   * The unrounded running sums over a list of entries, in list order; the
   * summed per-entry kcal is the kcal of the summed macros.
   */
  function Sum(entries: seq<Entry>): (t: Totals)
    ensures t.kcal == Kcal(t.protein, t.carbs, t.fat)
  {
    if entries == [] then Zero
    else
      var init, last := Sum(entries[..|entries| - 1]), entries[|entries| - 1];
      KcalAdditive(init.protein, init.carbs, init.fat, last.protein, last.carbs, last.fat);
      Plus(init, EntryTotals(last))
  }

  /** Entries with no negative macro have non-negative sums. */
  lemma {:induction false} SumNonNegative(entries: seq<Entry>)
    requires AllNonNegative(entries)
    ensures var t := Sum(entries); t.kcal >= 0.0 && t.protein >= 0.0 && t.carbs >= 0.0 && t.fat >= 0.0
  {
    if entries != [] {
      var init := entries[..|entries| - 1];
      assert forall i :: 0 <= i < |init| ==> init[i] == entries[i];
      SumNonNegative(init);
    }
  }

  /** The sum over two lists laid end to end is the sum of the two sums. */
  lemma {:induction false} SumConcat(a: seq<Entry>, b: seq<Entry>)
    ensures Sum(a + b) == Plus(Sum(a), Sum(b))
  {
    if b == [] {
      assert a + b == a;
      PlusZero(Sum(a));
    } else {
      var ab := a + b;
      var b', last := b[..|b| - 1], b[|b| - 1];
      assert ab[..|ab| - 1] == a + b' && ab[|ab| - 1] == last;
      assert Sum(ab) == Plus(Sum(a + b'), EntryTotals(last));
      assert Sum(b) == Plus(Sum(b'), EntryTotals(last));
      SumConcat(a, b');
      PlusAssociative(Sum(a), Sum(b'), EntryTotals(last));
    }
  }

  lemma PlusZero(t: Totals)
    ensures Plus(t, Zero) == t && Plus(Zero, t) == t
  {
  }

  lemma PlusAssociative(x: Totals, y: Totals, z: Totals)
    ensures Plus(Plus(x, y), z) == Plus(x, Plus(y, z))
  {
  }

  /** A one-entry list sums to that entry's contribution. */
  lemma SumSingleton(e: Entry)
    ensures Sum([e]) == EntryTotals(e)
  {
    assert [e][..0] == [];
    PlusZero(EntryTotals(e));
  }

  /**
   * Removing the entry at `index` takes exactly that entry's contribution
   * out of the totals.
   */
  lemma SumWithout(entries: seq<Entry>, index: nat)
    requires index < |entries|
    ensures Plus(Sum(entries[..index] + entries[index + 1..]), EntryTotals(entries[index])) == Sum(entries)
  {
    var pre, e, post := entries[..index], entries[index], entries[index + 1..];
    var sp, t, sq := Sum(pre), EntryTotals(e), Sum(post);
    assert Sum(entries) == Plus(Sum(pre + [e]), sq) by {
      assert entries == (pre + [e]) + post;
      SumConcat(pre + [e], post);
    }
    assert Sum(pre + [e]) == Plus(sp, t) by {
      SumConcat(pre, [e]);
      SumSingleton(e);
    }
    assert Sum(pre + post) == Plus(sp, sq) by {
      SumConcat(pre, post);
    }
    PlusSwap(Sum(entries), Sum(pre + [e]), Sum(pre + post), sp, t, sq);
  }

  lemma PlusSwap(all: Totals, front: Totals, rest: Totals, x: Totals, y: Totals, z: Totals)
    requires all == Plus(front, z) && front == Plus(x, y) && rest == Plus(x, z)
    ensures Plus(rest, y) == all
  {
  }

  /** The totals loop: accumulate each entry's kcal and macros, unrounded. */
  method SumEntries(entries: seq<Entry>) returns (t: Totals)
    ensures t == Sum(entries)
    ensures t.kcal == Kcal(t.protein, t.carbs, t.fat)
    ensures entries == [] ==> t == Zero
  {
    t := Zero;
    var i := 0;
    while i < |entries|
      invariant 0 <= i <= |entries|
      invariant t == Sum(entries[..i])
    {
      assert entries[..i + 1][..i] == entries[..i];
      t := Plus(t, EntryTotals(entries[i]));
      i := i + 1;
    }
    assert entries[..i] == entries;
  }

  class MealLog {
    /** The log document: date to bucket. */
    var days: map<Day, DayBucket>

    constructor (stored: map<Day, DayBucket>)
      ensures days == stored
    {
      days := stored;
    }

    /** The entries logged on `d`; none when the date has no bucket. */
    function EntriesOn(d: Day): seq<Entry>
      reads this
    {
      if d in days then days[d].entries else []
    }

    /**
     * The add-meal handler: look the posted name up in the catalogue (first
     * match wins); if found, create today's bucket with its label when it is
     * missing and append the meal's snapshot. An unknown name changes nothing.
     */
    method AddMeal(catalogue: seq<Meal>, mealName: string, today: Day, todayLabel: string)
      modifies this
      ensures FirstIndexOf(catalogue, mealName).None? ==> days == old(days)
      ensures FirstIndexOf(catalogue, mealName).Some? ==>
        var m := catalogue[FirstIndexOf(catalogue, mealName).value];
        && today in days
        && days == old(days)[today := days[today]]
        && days[today].dateLabel == (if today in old(days) then old(days)[today].dateLabel else todayLabel)
        && days[today].entries == old(EntriesOn(today))
                                  + [Entry(m.name, m.protein, m.carbs, m.fat, m.color.GetOr(DefaultColor))]
    {
      var found := FindFirst(catalogue, mealName);
      if found.Some? {
        var meal := catalogue[found.value];
        if today !in days {
          days := days[today := DayBucket(todayLabel, [])];
        }
        var bucket := days[today];
        days := days[today := DayBucket(bucket.dateLabel, bucket.entries + [Snapshot(meal)])];
      }
    }

    /**
     * The delete handler: when today has a bucket and `index` is a position
     * in it, remove that entry and shift the later ones down; otherwise do
     * nothing. The date stays in the log even when its last entry goes.
     */
    method DeleteAt(today: Day, index: int)
      modifies this
      ensures !(today in old(days) && 0 <= index < |old(days)[today].entries|) ==> days == old(days)
      ensures today in old(days) && 0 <= index < |old(days)[today].entries| ==>
        var bucket := old(days)[today];
        && today in days
        && days == old(days)[today := DayBucket(bucket.dateLabel, bucket.entries[..index] + bucket.entries[index + 1..])]
        && |days[today].entries| == |bucket.entries| - 1
        && Plus(Sum(days[today].entries), EntryTotals(bucket.entries[index])) == Sum(bucket.entries)
    {
      if today in days && 0 <= index < |days[today].entries| {
        var bucket := days[today];
        SumWithout(bucket.entries, index);
        days := days[today := DayBucket(bucket.dateLabel, bucket.entries[..index] + bucket.entries[index + 1..])];
      }
    }

    /** Today's totals: plain sums over today's entries, all zero when today has no bucket. */
    method TodayTotals(today: Day) returns (t: Totals)
      ensures t == Sum(EntriesOn(today))
      ensures t.kcal == Kcal(t.protein, t.carbs, t.fat)
      ensures today !in days ==> t == Zero
    {
      var todays := if today in days then days[today].entries else [];
      t := SumEntries(todays);
    }
  }
}
