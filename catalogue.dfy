/**
 * The meal-management page: validated add, update and delete of catalogue
 * entries, and the alphabetical display order. The catalogue is the list
 * decoded from the meals document; loading and saving it are not modelled.
 */
module Catalogue {
  import opened Wrappers
  import opened PhpStrings
  import opened Meals

  const NameRequired := "Meal name is required"
  const NegativeMacros := "Macronutrient values cannot be negative"
  const DuplicateName := "A meal with this name already exists"

  /**
   * The validation errors in the order the handlers append them: name, then
   * macros, then duplicate, one message per violated rule.
   */
  function ErrorList(nameMissing: bool, negative: bool, duplicate: bool): (r: seq<string>)
    ensures |r| == (if nameMissing then 1 else 0) + (if negative then 1 else 0) + (if duplicate then 1 else 0)
    ensures forall k :: 0 <= k < |r| ==> r[k] == NameRequired || r[k] == NegativeMacros || r[k] == DuplicateName
    ensures r == [] <==> !nameMissing && !negative && !duplicate
    ensures NameRequired in r <==> nameMissing
    ensures NegativeMacros in r <==> negative
    ensures DuplicateName in r <==> duplicate
    ensures nameMissing ==> r[0] == NameRequired
    ensures duplicate ==> r[|r| - 1] == DuplicateName
    ensures forall i, j :: 0 <= i < j < |r| ==> r[i] != r[j]
  {
    (if nameMissing then [NameRequired] else [])
    + (if negative then [NegativeMacros] else [])
    + (if duplicate then [DuplicateName] else [])
  }

  /** Some meal's name equals `name` once both are lower-cased. */
  predicate NameTaken(meals: seq<Meal>, name: string) {
    exists i :: 0 <= i < |meals| && Lower(meals[i].name) == Lower(name)
  }

  /** No two meals have names that are equal ignoring ASCII case. */
  predicate CaseUnique(meals: seq<Meal>) {
    forall i, j :: 0 <= i < j < |meals| ==> Lower(meals[i].name) != Lower(meals[j].name)
  }

  /** Appending a meal whose name is not taken keeps the names case-unique. */
  lemma AppendKeepsCaseUnique(meals: seq<Meal>, m: Meal)
    requires CaseUnique(meals) && !NameTaken(meals, m.name)
    ensures CaseUnique(meals + [m])
  {
    var s := meals + [m];
    forall i, j | 0 <= i < j < |s| ensures Lower(s[i].name) != Lower(s[j].name) {
      if j == |meals| {
        assert s[i] == meals[i];
      } else {
        assert s[i] == meals[i] && s[j] == meals[j];
      }
    }
  }

  /**
   * Overwriting entry k keeps the names case-unique when the new name is the
   * old one up to case, or is not taken at all.
   */
  lemma ReplaceKeepsCaseUnique(meals: seq<Meal>, k: nat, m: Meal)
    requires CaseUnique(meals) && k < |meals|
    requires Lower(m.name) == Lower(meals[k].name) || !NameTaken(meals, m.name)
    ensures CaseUnique(meals[k := m])
  {
    var s := meals[k := m];
    forall i, j | 0 <= i < j < |s| ensures Lower(s[i].name) != Lower(s[j].name) {
      if i == k {
        assert Lower(s[j].name) == Lower(meals[j].name);
      } else if j == k {
        assert Lower(s[i].name) == Lower(meals[i].name);
      }
    }
  }

  /** Removing one entry keeps the names case-unique. */
  lemma RemoveKeepsCaseUnique(meals: seq<Meal>, k: nat)
    requires CaseUnique(meals) && k < |meals|
    ensures CaseUnique(meals[..k] + meals[k + 1..])
  {
    var s := meals[..k] + meals[k + 1..];
    forall i, j | 0 <= i < j < |s| ensures Lower(s[i].name) != Lower(s[j].name) {
      var i' := if i < k then i else i + 1;
      var j' := if j < k then j else j + 1;
      assert s[i] == meals[i'] && s[j] == meals[j'];
    }
  }

  /** Names in ascending `strcmp` order. */
  predicate SortedByName(meals: seq<Meal>) {
    forall i, j :: 0 <= i < j < |meals| ==> StrCmp(meals[i].name, meals[j].name) <= 0
  }

  /** The meals named exactly `n`, in list order. */
  ghost function WithName(meals: seq<Meal>, n: string): seq<Meal> {
    if meals == [] then []
    else WithName(meals[..|meals| - 1], n) + (if meals[|meals| - 1].name == n then [meals[|meals| - 1]] else [])
  }

  /**
   * Meals with equal names appear in the same relative order in both lists:
   * what a stable sort keeps, since `strcmp` ties only on equal names.
   */
  ghost predicate SameOrderPerName(a: seq<Meal>, b: seq<Meal>) {
    forall n :: WithName(a, n) == WithName(b, n)
  }

  /** Selecting by name distributes over concatenation. */
  lemma {:induction false} WithNameConcat(a: seq<Meal>, b: seq<Meal>, n: string)
    ensures WithName(a + b, n) == WithName(a, n) + WithName(b, n)
  {
    if b == [] {
      assert a + b == a;
    } else {
      var ab, b' := a + b, b[..|b| - 1];
      assert ab[..|ab| - 1] == a + b' && ab[|ab| - 1] == b[|b| - 1];
      WithNameConcat(a, b', n);
    }
  }

  /** A list with no meal named `n` selects nothing. */
  lemma {:induction false} WithNameNone(meals: seq<Meal>, n: string)
    requires forall k :: 0 <= k < |meals| ==> meals[k].name != n
    ensures WithName(meals, n) == []
  {
    if meals != [] {
      WithNameNone(meals[..|meals| - 1], n);
    }
  }

  /**
   * Inserting m in front of a suffix that selects no meal of m's name puts m
   * behind every meal of that name: the selection for any name only gains
   * m at its end.
   */
  lemma InsertKeepsOrderPerName(pre: seq<Meal>, post: seq<Meal>, m: Meal, n: string)
    requires WithName(post, m.name) == []
    ensures WithName(pre + [m] + post, n) == WithName(pre + post, n) + WithName([m], n)
  {
    var a, b, c := WithName(pre, n), WithName([m], n), WithName(post, n);
    var front := pre + [m];
    assert WithName(front, n) == a + b by {
      WithNameConcat(pre, [m], n);
    }
    assert WithName(front + post, n) == (a + b) + c by {
      WithNameConcat(front, post, n);
    }
    assert WithName(pre + post, n) == a + c by {
      WithNameConcat(pre, post, n);
    }
    if n == m.name {
      assert c == [];
      assert (a + b) + c == a + b && a + c == a;
    } else {
      assert b == [] by {
        assert [m][..0] == [];
      }
      assert a + b == a && (a + c) + b == a + c;
    }
  }

  /** In a sorted list, no meal at or after the first name sorting after m has m's name. */
  lemma NoEqualNameAfter(s: seq<Meal>, j: nat, m: Meal)
    requires SortedByName(s) && j <= |s|
    requires j < |s| ==> StrCmp(s[j].name, m.name) > 0
    ensures forall k :: 0 <= k < |s[j..]| ==> s[j..][k].name != m.name
  {
    forall k | 0 <= k < |s[j..]| ensures s[j..][k].name != m.name {
      assert s[j..][k] == s[j + k];
      if k > 0 {
        assert StrCmp(s[j].name, s[j + k].name) <= 0;
      }
    }
  }

  /**
   * Inserting m after every name that sorts no later than it, and before a
   * name that sorts after it, keeps the list sorted.
   */
  lemma InsertKeepsSorted(s: seq<Meal>, j: nat, m: Meal)
    requires SortedByName(s) && j <= |s|
    requires forall k :: 0 <= k < j ==> StrCmp(s[k].name, m.name) <= 0
    requires j < |s| ==> StrCmp(s[j].name, m.name) > 0
    ensures SortedByName(s[..j] + [m] + s[j..])
  {
    var t := s[..j] + [m] + s[j..];
    if j < |s| {
      StrCmpAntisymmetric(s[j].name, m.name);
    }
    forall a, b | 0 <= a < b < |t| ensures StrCmp(t[a].name, t[b].name) <= 0 {
      if a < j && b < j {
        assert t[a] == s[a] && t[b] == s[b];
      } else if a < j && b == j {
        assert t[a] == s[a];
      } else if a < j {
        assert t[a] == s[a] && t[b] == s[b - 1];
      } else if a == j {
        assert t[b] == s[b - 1];
        StrCmpTransitive(m.name, s[j].name, s[b - 1].name);
      } else {
        assert t[a] == s[a - 1] && t[b] == s[b - 1];
      }
    }
  }

  class MealCatalogue {
    /** The catalogue, in stored order. */
    var meals: seq<Meal>

    constructor (stored: seq<Meal>)
      ensures meals == stored
    {
      meals := stored;
    }

    /** The duplicate scan: compare lower-cased names against every entry, stopping at the first hit. */
    method HasNameIgnoringCase(name: string) returns (duplicate: bool)
      ensures duplicate <==> NameTaken(meals, name)
    {
      duplicate := false;
      var i := 0;
      while i < |meals|
        invariant 0 <= i <= |meals|
        invariant forall j :: 0 <= j < i ==> Lower(meals[j].name) != Lower(name)
      {
        if Lower(meals[i].name) == Lower(name) {
          duplicate := true;
          break;
        }
        i := i + 1;
      }
    }

    /** Validation of an add: the (already trimmed) name, the three macros, and the duplicate scan. */
    method ValidateAdd(name: string, protein: real, carbs: real, fat: real) returns (errors: seq<string>)
      ensures errors == ErrorList(IsEmptyString(name), protein < 0.0 || carbs < 0.0 || fat < 0.0,
                                  NameTaken(meals, name))
    {
      errors := [];
      if IsEmptyString(name) {
        errors := errors + [NameRequired];
      }
      if protein < 0.0 || carbs < 0.0 || fat < 0.0 {
        errors := errors + [NegativeMacros];
      }
      assert errors == ErrorList(IsEmptyString(name), protein < 0.0 || carbs < 0.0 || fat < 0.0, false);
      var duplicate := HasNameIgnoringCase(name);
      if duplicate {
        errors := errors + [DuplicateName];
      }
    }

    /**
     * Validation of an update: as for an add, except that the duplicate scan
     * is skipped when the new name equals the old one ignoring case.
     */
    method ValidateUpdate(oldName: string, newName: string, protein: real, carbs: real, fat: real)
      returns (errors: seq<string>)
      ensures errors == ErrorList(IsEmptyString(newName), protein < 0.0 || carbs < 0.0 || fat < 0.0,
                                  Lower(oldName) != Lower(newName) && NameTaken(meals, newName))
    {
      errors := [];
      if IsEmptyString(newName) {
        errors := errors + [NameRequired];
      }
      if protein < 0.0 || carbs < 0.0 || fat < 0.0 {
        errors := errors + [NegativeMacros];
      }
      assert errors == ErrorList(IsEmptyString(newName), protein < 0.0 || carbs < 0.0 || fat < 0.0, false);
      if Lower(oldName) != Lower(newName) {
        var duplicate := HasNameIgnoringCase(newName);
        if duplicate {
          errors := errors + [DuplicateName];
        }
      }
    }

    /**
     * The add handler. The posted name and description are trimmed; a
     * missing description becomes "". On success the new meal is appended;
     * on any error the catalogue is left as it was.
     */
    method Add(postedName: string, protein: real, carbs: real, fat: real,
               color: Option<string>, postedDescription: Option<string>)
      returns (errors: seq<string>)
      modifies this
      ensures errors == ErrorList(IsEmptyString(Trim(postedName)), protein < 0.0 || carbs < 0.0 || fat < 0.0,
                                  NameTaken(old(meals), Trim(postedName)))
      ensures errors == [] ==>
        meals == old(meals) + [Meal(Trim(postedName), protein, carbs, fat, color,
                                    Some(Trim(postedDescription.GetOr(""))))]
      ensures errors != [] ==> meals == old(meals)
      ensures CaseUnique(old(meals)) ==> CaseUnique(meals)
    {
      var name := Trim(postedName);
      errors := ValidateAdd(name, protein, carbs, fat);
      if errors == [] {
        var description := if postedDescription.Some? then Trim(postedDescription.value) else "";
        var meal := Meal(name, protein, carbs, fat, color, Some(description));
        if CaseUnique(meals) {
          AppendKeepsCaseUnique(meals, meal);
        }
        meals := meals + [meal];
      }
    }

    /**
     * The update handler. After validation it overwrites, in place, the
     * first entry whose name is exactly the trimmed old name; when there is
     * none, the catalogue is unchanged although the update reports success.
     */
    method Update(postedOldName: string, postedName: string, protein: real, carbs: real, fat: real,
                  color: Option<string>, postedDescription: Option<string>)
      returns (errors: seq<string>)
      modifies this
      ensures errors == ErrorList(IsEmptyString(Trim(postedName)), protein < 0.0 || carbs < 0.0 || fat < 0.0,
                                  Lower(Trim(postedOldName)) != Lower(Trim(postedName))
                                  && NameTaken(old(meals), Trim(postedName)))
      ensures errors != [] ==> meals == old(meals)
      ensures errors == [] ==>
        match FirstIndexOf(old(meals), Trim(postedOldName))
        case None => meals == old(meals)
        case Some(k) =>
          meals == old(meals)[k := Meal(Trim(postedName), protein, carbs, fat, color,
                                        Some(Trim(postedDescription.GetOr(""))))]
      ensures CaseUnique(old(meals)) ==> CaseUnique(meals)
    {
      var oldName := Trim(postedOldName);
      var newName := Trim(postedName);
      errors := ValidateUpdate(oldName, newName, protein, carbs, fat);
      if errors == [] {
        var description := if postedDescription.Some? then Trim(postedDescription.value) else "";
        var target := FindFirst(meals, oldName);
        if target.Some? {
          var k := target.value;
          var meal := Meal(newName, protein, carbs, fat, color, Some(description));
          if CaseUnique(meals) {
            ReplaceKeepsCaseUnique(meals, k, meal);
          }
          meals := meals[k := meal];
        }
      }
    }

    /**
     * The delete handler: removes the first entry whose name is exactly the
     * posted name (not trimmed) and closes the gap; no match, no change.
     */
    method Delete(name: string)
      modifies this
      ensures match FirstIndexOf(old(meals), name)
              case None => meals == old(meals)
              case Some(k) => meals == old(meals)[..k] + old(meals)[k + 1..]
      ensures |meals| == |old(meals)| - (if FirstIndexOf(old(meals), name).Some? then 1 else 0)
      ensures CaseUnique(old(meals)) ==> CaseUnique(meals)
    {
      var target := FindFirst(meals, name);
      if target.Some? {
        var k := target.value;
        if CaseUnique(meals) {
          RemoveKeepsCaseUnique(meals, k);
        }
        meals := meals[..k] + meals[k + 1..];
      }
    }

    /**
     * The display sort (`usort` with `strcmp` on the names): the catalogue
     * becomes a permutation of itself in ascending byte-wise name order.
     */
    method SortByName()
      modifies this
      ensures SortedByName(meals)
      ensures multiset(meals) == multiset(old(meals))
      ensures SameOrderPerName(meals, old(meals))
    {
      meals := SortedCopy(meals);
    }
  }

  /**
   * The sort `usort` performs, modelled by an insertion sort: a permutation
   * of `s` in ascending `strcmp` order of the names.
   */
  method SortedCopy(s: seq<Meal>) returns (sorted: seq<Meal>)
    ensures SortedByName(sorted)
    ensures multiset(sorted) == multiset(s)
    ensures SameOrderPerName(sorted, s)
  {
    sorted := [];
    var i := 0;
    while i < |s|
      invariant 0 <= i <= |s|
      invariant SortedByName(sorted)
      invariant multiset(sorted) == multiset(s[..i])
      invariant SameOrderPerName(sorted, s[..i])
    {
      var next := InsertByName(sorted, s[i]);
      assert s[..i + 1] == s[..i] + [s[i]];
      forall n ensures WithName(next, n) == WithName(s[..i + 1], n) {
        WithNameConcat(s[..i], [s[i]], n);
      }
      sorted := next;
      i := i + 1;
    }
    assert s[..i] == s;
  }

  /** One insertion step: put m after every name that sorts no later than it. */
  method InsertByName(sorted: seq<Meal>, m: Meal) returns (r: seq<Meal>)
    requires SortedByName(sorted)
    ensures SortedByName(r)
    ensures multiset(r) == multiset(sorted) + multiset{m}
    ensures forall n :: WithName(r, n) == WithName(sorted, n) + WithName([m], n)
  {
    var j := 0;
    while j < |sorted| && StrCmp(sorted[j].name, m.name) <= 0
      invariant 0 <= j <= |sorted|
      invariant forall k :: 0 <= k < j ==> StrCmp(sorted[k].name, m.name) <= 0
    {
      j := j + 1;
    }
    InsertKeepsSorted(sorted, j, m);
    assert sorted == sorted[..j] + sorted[j..];
    r := sorted[..j] + [m] + sorted[j..];
    NoEqualNameAfter(sorted, j, m);
    WithNameNone(sorted[j..], m.name);
    forall n ensures WithName(r, n) == WithName(sorted, n) + WithName([m], n) {
      InsertKeepsOrderPerName(sorted[..j], sorted[j..], m, n);
    }
  }
}
