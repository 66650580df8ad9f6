/** The tag-list updates shared by the forms and the filters: selecting appends, removing
    drops every entry equal to the removed one. */
module TagSelection {
  import opened Js

  /** `[...tags, tag]`. */
  function SelectTag<T>(tags: seq<T>, t: T): (r: seq<T>)
    ensures |r| == |tags| + 1
  {
    tags + [t]
  }

  /** `tags.filter(tag => tag !== tagToRemove)`. */
  function RemoveTag<T(==,!new)>(tags: seq<T>, t: T): (r: seq<T>)
    ensures forall x :: x in r <==> x in tags && x != t
  {
    Filter(tags, (x: T) => x != t)
  }

  /** Selecting never de-duplicates: the tag is counted once more, the others as before. */
  lemma SelectCounts<T>(tags: seq<T>, t: T)
    ensures forall x :: multiset(SelectTag(tags, t))[x] == multiset(tags)[x] + (if x == t then 1 else 0)
    ensures SelectTag(tags, t)[|tags|] == t && SelectTag(tags, t)[..|tags|] == tags
  {
  }

  /** Removing drops every occurrence of the tag and keeps every other entry as often as
      before. */
  lemma RemoveCounts<T(!new)>(tags: seq<T>, t: T)
    ensures forall x :: multiset(RemoveTag(tags, t))[x] == if x == t then 0 else multiset(tags)[x]
  {
    FilterCounts(tags, (x: T) => x != t);
  }

  /** A list without the tag is left as it is. */
  lemma {:induction false} RemoveAbsent<T(!new)>(tags: seq<T>, t: T)
    requires t !in tags
    ensures RemoveTag(tags, t) == tags
  {
    if tags != [] {
      assert t !in tags[1..];
      RemoveAbsent(tags[1..], t);
      assert tags == [tags[0]] + tags[1..];
    }
  }

  /** Removing a tag that is in the list makes the list shorter. */
  lemma {:induction false} RemoveShrinks<T(!new)>(tags: seq<T>, t: T)
    requires t in tags
    ensures |RemoveTag(tags, t)| < |tags|
  {
    assert tags == [tags[0]] + tags[1..];
    RemoveSplits([tags[0]], tags[1..], t);
    if tags[0] == t {
      assert RemoveTag([tags[0]], t) == [];
    } else {
      RemoveShrinks(tags[1..], t);
      assert |RemoveTag([tags[0]], t)| <= 1;
    }
  }

  /** Removing works piece by piece, so the entries that stay keep their order. */
  lemma RemoveSplits<T(!new)>(a: seq<T>, b: seq<T>, t: T)
    ensures RemoveTag(a + b, t) == RemoveTag(a, t) + RemoveTag(b, t)
  {
    FilterAppend(a, b, (x: T) => x != t);
  }

  /** Removing a tag that was just selected, and was not selected before, restores the
      list. */
  lemma RemoveUndoesSelect<T(!new)>(tags: seq<T>, t: T)
    requires t !in tags
    ensures RemoveTag(SelectTag(tags, t), t) == tags
  {
    RemoveSplits(tags, [t], t);
    RemoveAbsent(tags, t);
    assert RemoveTag([t], t) == [];
  }

  /** Removing twice is removing once. */
  lemma RemoveIdempotent<T(!new)>(tags: seq<T>, t: T)
    ensures RemoveTag(RemoveTag(tags, t), t) == RemoveTag(tags, t)
  {
    RemoveAbsent(RemoveTag(tags, t), t);
  }
}
