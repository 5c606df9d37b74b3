/** Small vocabulary shared by every model in this project. */
module Base {

  datatype Option<+T> = None | Some(value: T)

  type byte = b: int | 0 <= b < 256

  /** A byte string whose length fits the `u64` the source measures it with. */
  type Bytes = b: seq<byte> | |b| < 0x1_0000_0000_0000_0000

  function Concat(parts: seq<seq<byte>>): (whole: seq<byte>)
  {
    if parts == [] then [] else parts[0] + Concat(parts[1..])
  }

  lemma {:induction false} ConcatAppend(a: seq<seq<byte>>, b: seq<seq<byte>>)
    ensures Concat(a + b) == Concat(a) + Concat(b)
  {
    if a == [] {
      assert a + b == b;
    } else {
      assert (a + b)[1..] == a[1..] + b;
      ConcatAppend(a[1..], b);
    }
  }
}
