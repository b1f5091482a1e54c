/**
 * The process-wide initialisation flag of src/init.c. The flag is a C
 * `int` that only lgmalloc_set_init writes; InitFlag holds it as a field
 * so that the entry points can be stated as updates of that one variable.
 */
module Init {
  import opened Align

  /** `!!value`: 1 for any nonzero argument, 0 for zero. */
  function Normalize(value: int): (r: int)
    ensures r == 0 || r == 1
    ensures r == 1 <==> value != 0
    ensures r == 0 <==> value == 0
  {
    if value != 0 then 1 else 0
  }

  class InitFlag {
    /** __is_lgmalloc_init_g */
    var isInit: int

    /** The flag only ever holds 0 or 1. */
    ghost predicate Valid()
      reads this
    {
      isInit == 0 || isInit == 1
    }

    /** The flag starts at 0: the allocator is not initialised. */
    constructor ()
      ensures Valid() && isInit == 0
    {
      isInit := 0;
    }

    /** lgmalloc_set_init: stores 1 for a nonzero argument and 0 for zero. */
    method SetInit(value: int)
      modifies this
      ensures Valid()
      ensures isInit == Normalize(value)
    {
      isInit := Normalize(value);
    }

    /** __lgmalloc_is_init and lgmalloc_is_init: the flag, which is 0 or 1. */
    method IsInit() returns (r: int)
      requires Valid()
      ensures r == 0 || r == 1
      ensures r == isInit
    {
      r := isInit;
    }

    /**
     * lgmalloc_init: returns at once when the flag is set; otherwise runs
     * the alignment self-check and sets the flag. Afterwards the flag is 1,
     * and a second call changes nothing.
     */
    method LgmallocInit()
      requires Valid()
      modifies this
      ensures Valid() && isInit == 1
      ensures old(isInit) == 1 ==> unchanged(this)
    {
      var already := IsInit();
      if already != 0 {
        return;
      }
      VerifyAlignMacros();
      SetInit(1);
    }
  }
}
