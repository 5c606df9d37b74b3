/**
 The part files the source names: a beginning of the destination, the marker of the transfer id, `.part`.
 When two transfers get in each other's way, and when they cannot.
 */
module Parts {
  import Base
  import opened Names
  import Receive

  /** `part_path`, for the markers of the ids. */
  function SourceNaming(mark: string -> string): Receive.Naming
    requires forall id :: IsMarker(mark(id))
  {
    NeverItsOwn(mark);
    (name: string, id: string) => PartName(name, mark(id))
  }

  lemma NeverItsOwn(mark: string -> string)
    requires forall id :: IsMarker(mark(id))
    ensures forall name, id :: PartName(name, mark(id)) != name
  {
    forall name, id ensures PartName(name, mark(id)) != name { var _ := PartNameShape(name, mark(id)); }
  }

  /** Short enough to be a part file's stem whole, and not named like a part file. */
  predicate Ordinary(name: string)
  {
    Bytes(name) <= MAX_BYTES - 22 && !(|name| >= 5 && name[|name| - 5..] == ".part")
  }

  lemma OrdinaryPart(name: string, marker: string)
    requires Ordinary(name) && IsMarker(marker)
    ensures PartName(name, marker) == name + Tail(marker)
  {
    TailFacts(marker);
    assert name + Tail(marker) != name;
  }

  lemma SameOrdinaryPart(name: string, marker: string, name': string, other: string)
    requires Ordinary(name) && Ordinary(name') && IsMarker(marker) && IsMarker(other)
    ensures PartName(name, marker) == PartName(name', other) <==> name == name' && marker == other
  {
    OrdinaryPart(name, marker);
    OrdinaryPart(name', other);
    if PartName(name, marker) == PartName(name', other) {
      PartNamesDiffer(name, marker, name', other);
      var whole := name + Tail(marker);
      assert |name| == |name'| && whole[..|name|] == name && whole[..|name|] == name';
    }
  }

  lemma NotAPart(name: string, name': string, other: string)
    requires Ordinary(name) && Ordinary(name') && IsMarker(other)
    ensures name != PartName(name', other)
  {
    OrdinaryPart(name', other);
    TailFacts(other);
    var whole := name' + Tail(other);
    assert whole[|whole| - 5..] == ".part";
  }

  /**
   Among transfers with ordinary names no two live calls ever write one part file, exactly when no two
   of them share both a destination and a marker.
   */
  lemma OrdinaryTransfersCollideExactlyWhen(offers: set<Receive.Offer>, sha: seq<Base.byte> -> string, mark: string -> string)
    requires (forall id :: IsMarker(mark(id))) && forall o | o in offers :: Ordinary(o.name)
    ensures Receive.AlwaysApart(offers, Receive.Env(sha, SourceNaming(mark)))
       <==> forall a, b | a in offers && b in offers && a.name == b.name && mark(a.id) == mark(b.id) :: a.id == b.id
  {
    var env := Receive.Env(sha, SourceNaming(mark));
    Receive.OneWriterPerPart(offers, env);
    forall a, b | a in offers && b in offers
      ensures Receive.Distinct(a, b, env) <==> a.name != b.name || mark(a.id) != mark(b.id)
    {
      SameOrdinaryPart(a.name, mark(a.id), b.name, mark(b.id));
      NotAPart(a.name, b.name, mark(b.id));
    }
  }
}
