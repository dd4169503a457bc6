/**
 * The debug-only checks: `is_enum_valid`, which in a debug build tests an
 * enumerator against the enum's `first_enum_value`/`last_enum_value` range
 * and in a release build accepts everything, and `debug_throw`, which throws
 * only in a debug build.
 */
module DebugAssert {
  import opened Outcomes

  /** Whether `NDEBUG` is defined. */
  datatype Build = Debug | Release

  /** `is_enum_valid` as written: a range test on the numeric value in a debug build. */
  function IsEnumValidAsWritten(build: Build, value: int, first: int, last: int): (r: bool)
    ensures build == Release ==> r
    ensures build == Debug ==> (r <==> first <= value && value <= last)
  {
    build == Release || (first <= value && value <= last)
  }

  /**
   * `is_enum_valid` as evidently intended: a value is valid when it is one of
   * the enum's declared enumerators, whatever order their numbers come in.
   */
  function IsEnumValid(build: Build, value: int, declared: set<int>): (r: bool)
    ensures build == Release ==> r
    ensures build == Debug ==> (r <==> value in declared)
  {
    build == Release || value in declared
  }

  /** Every declared enumerator passes the intended check, in both builds. */
  lemma DeclaredEnumeratorsPass(build: Build, declared: set<int>, value: int)
    requires value in declared
    ensures IsEnumValid(build, value, declared)
  {
  }

  /** Where the enumerators are exactly the numbers from `first` to `last`, the range test is the intended check. */
  lemma RangeTestIntendedForContiguousEnums(build: Build, first: int, last: int, declared: set<int>, value: int)
    requires forall v :: v in declared <==> first <= v <= last
    ensures IsEnumValidAsWritten(build, value, first, last) == IsEnumValid(build, value, declared)
  {
  }

  /** `debug_throw<Exception>`: throws `e` in a debug build, does nothing in a release build. */
  function DebugThrow(build: Build, e: Error): (r: Result<()>)
    ensures build == Debug <==> r.Err?
    ensures r.Err? ==> r.error == e
  {
    if build == Debug then Err(e) else Ok(())
  }
}
