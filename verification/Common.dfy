/** Shared value types, and facts about sequences and sets of any kind. */
module Common {
  datatype Option<+T> = None | Some(value: T)

  datatype Result<+T> = Ok(value: T) | Err

  const I64_MAX: nat := 0x7FFF_FFFF_FFFF_FFFF
  const U64_MAX: nat := 0xFFFF_FFFF_FFFF_FFFF

  lemma Reassociate<T>(a: seq<T>, b: seq<T>, c: seq<T>)
    ensures a + (b + c) == a + b + c
  {
  }

  lemma {:induction false} LargestExists(s: set<nat>)
    requires s != {}
    ensures exists n :: n in s && forall x :: x in s ==> x <= n
  {
    var a :| a in s;
    var rest := s - {a};
    if rest == {} {
      assert s == {a};
    } else {
      LargestExists(rest);
      var b :| b in rest && forall x :: x in rest ==> x <= b;
      var n := if a < b then b else a;
      assert n in s;
      forall x | x in s ensures x <= n {
        assert x == a || x in rest;
      }
    }
  }

  function Largest(s: set<nat>): (n: nat)
    requires s != {}
    ensures n in s && forall x :: x in s ==> x <= n
  {
    LargestExists(s);
    var n :| n in s && forall x :: x in s ==> x <= n;
    n
  }

  lemma FreshNumber(s: set<nat>) returns (n: nat)
    ensures n !in s
  {
    n := if s == {} then 0 else Largest(s) + 1;
  }
}
