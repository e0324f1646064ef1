module Counts {
  function One(b: bool): nat {
    if b then 1 else 0
  }
}
