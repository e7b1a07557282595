/** Shapes and small functions shared by the other modules. */
module Common {

  /** A value that may be absent: the null or undefined of the sources. */
  datatype Option<+T> = None | Some(value: T)

  /** A returned value or a thrown error. */
  datatype Result<+T, +E> = Ok(value: T) | Err(error: E)

  /** Where a peer's media comes from: no one, the server's forwarding unit, or another peer. */
  datatype Upstream = NoUpstream | Sfu | Peer(peerId: string)

  type Byte = b: int | 0 <= b < 256

  type Bytes = seq<Byte>

  /** The largest integer JavaScript calls safe. */
  const MAX_SAFE_INTEGER := 9007199254740991

  function Max(a: nat, b: nat): nat {
    if a < b then b else a
  }

  function MaxReal(a: real, b: real): real {
    if a < b then b else a
  }

  predicate NoRepeats<T(==)>(s: seq<T>) {
    forall i, j | 0 <= i < j < |s| :: s[i] != s[j]
  }

  /** The parts, one after the other. */
  function Flatten<T>(parts: seq<seq<T>>): seq<T> {
    if parts == [] then [] else Flatten(parts[..|parts| - 1]) + parts[|parts| - 1]
  }

  /** Every occurrence of one element removed. */
  function Without<T(==)>(s: seq<T>, x: T): seq<T> {
    if s == [] then []
    else if s[|s| - 1] == x then Without(s[..|s| - 1], x)
    else Without(s[..|s| - 1], x) + [s[|s| - 1]]
  }

  lemma NoRepeatsGrows<T>(before: seq<T>, last: T)
    ensures NoRepeats(before + [last]) <==> NoRepeats(before) && last !in before
  {
    var s := before + [last];
    assert forall i | 0 <= i < |before| :: s[i] == before[i] && before[i] in before;
    if last in before {
      var i :| 0 <= i < |before| && before[i] == last;
      assert s[i] == s[|before|];
    } else if NoRepeats(s) {
      assert forall i, j | 0 <= i < j < |before| :: s[i] != s[j];
    }
  }

  lemma {:induction false} WithoutRemoves<T>(s: seq<T>, x: T)
    ensures forall y :: y in Without(s, x) <==> y in s && y != x
    ensures x !in s ==> Without(s, x) == s
    ensures NoRepeats(s) ==> NoRepeats(Without(s, x))
  {
    hide NoRepeats;
    if s == [] {
      assert Without(s, x) == s;
    } else {
      var before, last := s[..|s| - 1], s[|s| - 1];
      assert s == before + [last];
      WithoutRemoves(before, x);
      NoRepeatsGrows(before, last);
      NoRepeatsGrows(Without(before, x), last);
    }
  }
}
