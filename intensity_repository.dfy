/** The in-memory intensity repository: five seeded intensities, sorted in place by
    `getAllIntensities`, searched with `find` and grown with `push`. */
module IntensityRepository {
  import opened Js
  import opened Entities
  import IntensityModel

  /** The `order` parameter of `getAllIntensities`; `None` when the caller leaves it out,
      which the parameter default turns into "asc". */
  datatype SortOrder = Asc | Desc

  /** The comparator passed to `sort`: for "desc" it is `a.order - b.order`, which puts the
      lowest order first; for anything else, `b.order - a.order`, which puts the highest first. */
  function Compare(order: Option<SortOrder>, a: Intensity, b: Intensity): (r: int)
    ensures r == Key(order, a) - Key(order, b)
  {
    if order == Some(Desc) then a.order - b.order else b.order - a.order
  }

  /** The number the comparator effectively sorts by, lowest first. */
  function Key(order: Option<SortOrder>, i: Intensity): (k: int)
    ensures k == (if order == Some(Desc) then i.order else -i.order)
  {
    if order == Some(Desc) then i.order else -i.order
  }

  /** Places `x` into `s` before the first element the comparator puts after `x`, and so after
      every element it ties with: the step of a stable insertion sort. */
  function Insert(order: Option<SortOrder>, s: seq<Intensity>, x: Intensity): (r: seq<Intensity>)
    ensures |r| == |s| + 1
  {
    if s == [] then [x]
    else if Compare(order, x, s[0]) < 0 then [x] + s
    else [s[0]] + Insert(order, s[1..], x)
  }

  /** `Array.prototype.sort` with the repository's comparator. The sort is stable, so the
      result is that of inserting the elements one by one, each after its equals. */
  function Sort(order: Option<SortOrder>, s: seq<Intensity>): (r: seq<Intensity>)
    ensures |r| == |s|
  {
    if s == [] then [] else Insert(order, Sort(order, s[..|s| - 1]), s[|s| - 1])
  }

  /** In non-decreasing key order. */
  predicate Sorted(order: Option<SortOrder>, s: seq<Intensity>) {
    forall i, j :: 0 <= i < j < |s| ==> Key(order, s[i]) <= Key(order, s[j])
  }

  /** Every element of `s` has a key of at least `b`. */
  predicate KeysAtLeast(order: Option<SortOrder>, s: seq<Intensity>, b: int) {
    forall k :: 0 <= k < |s| ==> Key(order, s[k]) >= b
  }

  lemma {:induction false} InsertKeepsKeysAtLeast(order: Option<SortOrder>, s: seq<Intensity>, x: Intensity, b: int)
    requires KeysAtLeast(order, s, b) && Key(order, x) >= b
    ensures KeysAtLeast(order, Insert(order, s, x), b)
    decreases |s|
  {
    if s != [] && Compare(order, x, s[0]) >= 0 {
      InsertKeepsKeysAtLeast(order, s[1..], x, b);
    }
  }

  lemma {:induction false} InsertSorted(order: Option<SortOrder>, s: seq<Intensity>, x: Intensity)
    requires Sorted(order, s)
    ensures Sorted(order, Insert(order, s, x))
    decreases |s|
  {
    if s != [] && Compare(order, x, s[0]) >= 0 {
      InsertSorted(order, s[1..], x);
      InsertKeepsKeysAtLeast(order, s[1..], x, Key(order, s[0]));
    }
  }

  /** The sorted result is ordered by the comparator. */
  lemma {:induction false} SortSorted(order: Option<SortOrder>, s: seq<Intensity>)
    ensures Sorted(order, Sort(order, s))
    decreases |s|
  {
    if s != [] {
      SortSorted(order, s[..|s| - 1]);
      InsertSorted(order, Sort(order, s[..|s| - 1]), s[|s| - 1]);
    }
  }

  lemma {:induction false} InsertPermutes(order: Option<SortOrder>, s: seq<Intensity>, x: Intensity)
    ensures multiset(Insert(order, s, x)) == multiset(s) + multiset{x}
    decreases |s|
  {
    if s != [] && Compare(order, x, s[0]) >= 0 {
      InsertPermutes(order, s[1..], x);
      assert s == [s[0]] + s[1..];
    }
  }

  /** Sorting only reorders the intensities. */
  lemma {:induction false} SortPermutes(order: Option<SortOrder>, s: seq<Intensity>)
    ensures multiset(Sort(order, s)) == multiset(s)
    decreases |s|
  {
    if s != [] {
      SortPermutes(order, s[..|s| - 1]);
      InsertPermutes(order, Sort(order, s[..|s| - 1]), s[|s| - 1]);
      assert s == s[..|s| - 1] + [s[|s| - 1]];
    }
  }

  /** With "asc", and by default, the orders come out highest first; with "desc", lowest
      first: the reverse of what the parameter's values say. */
  lemma SortDirection(order: Option<SortOrder>, s: seq<Intensity>)
    ensures order != Some(Desc) ==>
      forall i, j :: 0 <= i < j < |Sort(order, s)| ==> Sort(order, s)[i].order >= Sort(order, s)[j].order
    ensures order == Some(Desc) ==>
      forall i, j :: 0 <= i < j < |Sort(order, s)| ==> Sort(order, s)[i].order <= Sort(order, s)[j].order
  {
    SortSorted(order, s);
  }

  /** Sorting a prefix one element longer inserts that element into the sorted prefix. */
  lemma SortStep(order: Option<SortOrder>, s: seq<Intensity>, i: nat)
    requires i < |s|
    ensures Sort(order, s[..i + 1]) == Insert(order, Sort(order, s[..i]), s[i])
  {
    assert s[..i + 1][..i] == s[..i];
  }

  /** Inserting at the first position whose element the comparator puts after `x`. */
  lemma {:induction false} InsertAt(order: Option<SortOrder>, s: seq<Intensity>, x: Intensity, j: nat)
    requires j <= |s|
    requires forall k :: 0 <= k < j ==> Compare(order, x, s[k]) >= 0
    requires j < |s| ==> Compare(order, x, s[j]) < 0
    ensures Insert(order, s, x) == s[..j] + [x] + s[j..]
    decreases j
  {
    if j > 0 {
      InsertAt(order, s[1..], x, j - 1);
      assert s[1..][..j - 1] == s[1..j];
      assert s[1..][j - 1..] == s[j..];
      assert s[..j] == [s[0]] + s[1..j];
    }
  }

  const SeedLabels: seq<string> := ["Rustig", "Matig", "Zwaar", "Hevig", "Extreem"]

  /** The five intensities the store starts with: ids and orders 1 to 5, each with its own
      `createdAt` object. */
  function Seed(stamps: seq<Stamp>): (r: seq<Intensity>)
    requires |stamps| == 5
    ensures |r| == 5
    ensures forall i :: 0 <= i < 5 ==>
      r[i].id == Some(i + 1) && r[i].intensity == SeedLabels[i] && r[i].order == i + 1
      && r[i].games == [] && r[i].createdAt == stamps[i] && r[i].updatedAt == Null
  {
    seq(5, i requires 0 <= i < 5 =>
      IntensityModel.NewIntensity(IntensityModel.IntensityInput(Some(i + 1), Some(SeedLabels[i]), Some(i + 1)), stamps[i]).value)
  }

  /** `intensity => intensity.getId() === id`. */
  function HasId(id: int): Intensity -> bool {
    (i: Intensity) => i.id == Some(id)
  }

  class IntensityStore {
    var intensities: seq<Intensity>

    /** The store as the module loads: the five seeded intensities. */
    constructor (stamps: seq<Stamp>)
      requires |stamps| == 5
      ensures intensities == Seed(stamps)
    {
      intensities := Seed(stamps);
    }

    /** `getAllIntensities`: sorts the shared store in place and returns it. */
    method GetAllIntensities(order: Option<SortOrder>) returns (r: seq<Intensity>)
      modifies this
      ensures intensities == Sort(order, old(intensities))
      ensures r == intensities
    {
      var s := intensities;
      var sorted: seq<Intensity> := [];
      var i := 0;
      while i < |s|
        invariant 0 <= i <= |s|
        invariant sorted == Sort(order, s[..i])
      {
        var x := s[i];
        var j := 0;
        while j < |sorted| && Compare(order, x, sorted[j]) >= 0
          invariant 0 <= j <= |sorted|
          invariant forall k :: 0 <= k < j ==> Compare(order, x, sorted[k]) >= 0
        {
          j := j + 1;
        }
        InsertAt(order, sorted, x, j);
        SortStep(order, s, i);
        sorted := sorted[..j] + [x] + sorted[j..];
        i := i + 1;
      }
      assert s[..i] == s;
      intensities := sorted;
      r := intensities;
    }

    /** `getIntensityById`: the first intensity with that id, or `null`. */
    method GetIntensityById(id: int) returns (r: Option<Intensity>)
      ensures r == FirstMatch(intensities, HasId(id))
      ensures r.Some? ==> r.value in intensities && r.value.id == Some(id)
      ensures r.None? <==> forall i :: i in intensities ==> i.id != Some(id)
    {
      r := Find(intensities, HasId(id));
    }

    /** `createIntensity`: appends the intensity and returns it. */
    method CreateIntensity(i: Intensity) returns (r: Intensity)
      modifies this
      ensures intensities == old(intensities) + [i]
      ensures r == i
    {
      intensities := intensities + [i];
      r := i;
    }
  }

  /** The seeded store, listed with the default order, comes out in reverse: from "Extreem"
      (order 5) down to "Rustig" (order 1). */
  lemma SeedListedByDefault(stamps: seq<Stamp>)
    requires |stamps| == 5
    ensures Sort(None, Seed(stamps)) == [Seed(stamps)[4], Seed(stamps)[3], Seed(stamps)[2], Seed(stamps)[1], Seed(stamps)[0]]
  {
    var s := Seed(stamps);
    assert s[..0] == [];
    SortStep(None, s, 0);
    SortStep(None, s, 1);
    SortStep(None, s, 2);
    SortStep(None, s, 3);
    SortStep(None, s, 4);
    assert s[..5] == s;
  }
}
