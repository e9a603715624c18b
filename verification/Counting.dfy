/** The counts of a run: each worker reports at most one of its flags. */
module Counting {
  datatype Counts = Counts(scaled: nat, skipped: nat, errors: nat)
  {
    function Total(): nat { scaled + skipped + errors }

    function Add(scaledOne: bool, skippedOne: bool, erroredOne: bool): Counts {
      if erroredOne then this.(errors := errors + 1)
      else if scaledOne then this.(scaled := scaled + 1)
      else if skippedOne then this.(skipped := skipped + 1)
      else this
    }
  }
}
