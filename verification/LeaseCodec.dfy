/** How a reservation is written into one Redis string, and how the scripts read it back. */
module LeaseCodec {
  import opened Wrappers
  import Decimal

  datatype State = Reserved | Leased(holder: string, expiry: nat) | Consumed

  const LEASED := "leased:"

  function Encode(s: State): string {
    match s
    case Reserved => "reserved"
    case Consumed => "consumed"
    case Leased(holder, expiry) => LEASED + holder + ":" + Decimal.Print(expiry)
  }

  /** string.sub(value, 1, 7) == 'leased:' */
  predicate IsLeased(value: string) { LEASED <= value }

  /** string.match(value, ':(%d+)$'): the leftmost colon followed only by digits. */
  function MatchExpiry(value: string): Option<nat> {
    if value == [] then None
    else if value[0] == ':' && |value| > 1 && Decimal.AllDigits(value[1..]) then Some(Decimal.Read(value[1..]))
    else MatchExpiry(value[1..])
  }

  /** The finalize script's test: the value starts with 'leased:' and the caller's id. */
  predicate HolderTest(value: string, id: string) { LEASED + id <= value }

  /** Whether the holder test passes on a decoded reservation. */
  predicate Accepts(s: State, id: string) {
    s.Leased? && id <= s.holder + ":" + Decimal.Print(s.expiry)
  }

  lemma {:induction false} MatchSkips(prefix: string, digits: string)
    requires Decimal.AllDigits(digits) && |digits| > 0
    ensures MatchExpiry(prefix + ":" + digits) == Some(Decimal.Read(digits))
  {
    var value := prefix + ":" + digits;
    if prefix == [] {
      assert value[1..] == digits;
    } else {
      assert value[1..] == prefix[1..] + ":" + digits;
      assert value[1..][|prefix| - 1] == ':';
      assert ':' in value[1..];
      MatchSkips(prefix[1..], digits);
    }
  }

  lemma ExpiryReadsBack(holder: string, expiry: nat)
    ensures MatchExpiry(Encode(Leased(holder, expiry))) == Some(expiry)
  {
    var digits := Decimal.Print(expiry);
    Decimal.ReadPrint(expiry);
    assert Encode(Leased(holder, expiry)) == (LEASED + holder) + ":" + digits;
    MatchSkips(LEASED + holder, digits);
  }

  lemma PrefixBehind(front: string, rest: string, id: string)
    ensures front + id <= front + rest <==> id <= rest
  {
    if front + id <= front + rest {
      assert (front + rest)[..|front + id|] == front + id;
      assert forall i :: 0 <= i < |id| ==> rest[i] == (front + rest)[|front| + i] == (front + id)[|front| + i];
    }
    if id <= rest {
      assert rest == id + rest[|id|..];
      assert front + rest == front + id + rest[|id|..];
    }
  }

  /** The first character tells the three kinds of value apart. */
  lemma TagsDiffer(s: State)
    ensures |Encode(s)| > 0 && (Encode(s)[0] == 'l' <==> s.Leased?)
    ensures Encode(s)[0] == 'r' <==> s.Reserved?
    ensures Encode(s)[0] == 'c' <==> s.Consumed?
    ensures IsLeased(Encode(s)) <==> s.Leased?
    ensures LEASED[0] == 'l'
  {
    assert LEASED[0] == 'l';
    if s.Leased? {
      var rest := s.holder + ":" + Decimal.Print(s.expiry);
      assert Encode(s) == LEASED + rest;
      assert Encode(s)[0] == LEASED[0];
    }
  }

  /** Reading back: the three tests the scripts make tell the states apart, the expiry comes
      back whatever the holder's id contains, and the holder test is a prefix test. */
  lemma ReadsBack(s: State, id: string)
    ensures IsLeased(Encode(s)) <==> s.Leased?
    ensures Encode(s) == "reserved" <==> s.Reserved?
    ensures Encode(s) == "consumed" <==> s.Consumed?
    ensures s.Leased? ==> Encode(s) == "leased:" + s.holder + ":" + Decimal.Print(s.expiry)
    ensures s.Leased? ==> MatchExpiry(Encode(s)) == Some(s.expiry)
    ensures HolderTest(Encode(s), id) <==> Accepts(s, id)
  {
    TagsDiffer(s);
    if s.Leased? {
      ExpiryReadsBack(s.holder, s.expiry);
      PrefixBehind(LEASED, s.holder + ":" + Decimal.Print(s.expiry), id);
      assert Encode(s) == LEASED + (s.holder + ":" + Decimal.Print(s.expiry));
    } else {
      assert (LEASED + id)[0] == LEASED[0];
    }
  }

  /** Among ids of one length, as the generator makes them, only the holder passes. */
  lemma HolderIsExact(s: State, id: string)
    requires s.Leased? && |id| == |s.holder|
    ensures Accepts(s, id) <==> id == s.holder
  {
    var rest := s.holder + ":" + Decimal.Print(s.expiry);
    assert rest[..|id|] == s.holder;
  }

  /** Ids of different lengths would not do: a shorter prefix of the holder also passes. */
  lemma ShorterIdPasses()
    ensures Accepts(Leased("ab", 7), "a")
  {
    assert ("ab" + ":" + Decimal.Print(7))[..1] == "a";
  }

  lemma HolderIsCutOut(s: State)
    requires s.Leased?
    ensures var v := Encode(s);
            var end := |v| - |Decimal.Print(s.expiry)| - 1;
            7 <= end <= |v| && v[7..end] == s.holder
  {
    assert Encode(s) == LEASED + s.holder + (":" + Decimal.Print(s.expiry));
  }

  /** No two reservations share an encoding, with no condition on the ids. */
  lemma EncodeInjective(s: State, t: State)
    requires Encode(s) == Encode(t)
    ensures s == t
  {
    ReadsBack(s, "");
    ReadsBack(t, "");
    if s.Leased? {
      HolderIsCutOut(s);
      HolderIsCutOut(t);
    }
  }
}
