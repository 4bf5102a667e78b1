/** Small facts about sequences shared by the other modules. */
module Seqs {

  /** Moving the head of the remainder onto the processed prefix. */
  lemma Regroup<T>(all: seq<T>, done: seq<T>, x: T, rest: seq<T>, rest': seq<T>)
    requires all == done + rest
    requires rest == [x] + rest'
    ensures all == (done + [x]) + rest'
  {
  }

  /** Dropping two prefixes in turn drops their combined length. */
  lemma DropDrop<T>(s: seq<T>, a: nat, b: nat)
    requires a + b <= |s|
    ensures s[a..][b..] == s[a + b..]
  {
  }
}
