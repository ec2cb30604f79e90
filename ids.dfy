// main.new_id: per-class id counters kept in a class attribute `count`.

module Ids {
  import opened Common

  /** A class used as an id category; `count` is None when it has no such attribute. */
  class Category {
    var count: Option<int>

    constructor(count: Option<int>)
      ensures this.count == count
    {
      this.count := count;
    }
  }

  /**
   * main.new_id: AttributeError for a class without `count`; otherwise the
   * counter goes up by exactly one and its new value is the id.
   */
  method NewId(category: Category) returns (id: Result<int>)
    modifies category
    ensures old(category.count).None? ==> id == Err(AttributeError) && category.count == None
    ensures old(category.count).Some? ==>
      && id == Ok(old(category.count).value + 1)
      && category.count == Some(id.value)
  {
    if category.count.None? {
      return Err(AttributeError);
    }
    category.count := Some(category.count.value + 1);
    id := Ok(category.count.value);
  }

  /**
   * Two calls for the same class give strictly increasing ids, and the
   * counter of any other class is left alone.
   */
  method SuccessiveIds(category: Category, other: Category) returns (first: Result<int>, second: Result<int>)
    requires category != other
    modifies category
    ensures first.Ok? <==> old(category.count).Some?
    ensures first.Ok? ==> second.Ok? && first.value < second.value
    ensures other.count == old(other.count)
  {
    first := NewId(category);
    second := NewId(category);
  }
}
