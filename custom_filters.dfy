/**
 * recipe/templatetags/custom_filters.py: the `make_list` template filter,
 * which turns a star count into the sequence 1..n that a template loops over.
 */
module CustomFilters {

  /** `range(1, value + 1)`: empty when `value` is not positive. */
  function MakeList(value: int): (r: seq<int>)
    ensures |r| == if value <= 0 then 0 else value
    ensures forall i :: 0 <= i < |r| ==> r[i] == i + 1
    decreases if value <= 0 then 0 else value
  {
    if value <= 0 then [] else MakeList(value - 1) + [value]
  }

  /**
   * The filter yields 1, 2, ..., n: it starts at 1, climbs by one, ends at
   * `value`, and every element lies in 1..value.
   */
  lemma MakeListCountsUp(value: int)
    requires value >= 1
    ensures MakeList(value)[0] == 1 && MakeList(value)[|MakeList(value)| - 1] == value
    ensures forall i :: 0 <= i < |MakeList(value)| - 1 ==> MakeList(value)[i + 1] == MakeList(value)[i] + 1
    ensures forall x :: x in MakeList(value) <==> 1 <= x <= value
  {
    var r := MakeList(value);
    forall x | 1 <= x <= value ensures x in r {
      assert r[x - 1] == x;
    }
  }
}
