/** The interface of the carrier_pigeon networking crate as far as the game
    uses it. The crate itself is foreign: what is written here is the
    behaviour the game relies on, not a model of the crate's code. */
module Pigeon {
  import opened Base

  /** A connection id handed out by the server; opaque to the game. */
  type CId = nat

  /** A predicate over connection ids, used to address or filter peers. */
  datatype CIdSpec = All | Only(cid: CId) | Except(cid: CId)

  /** The assumed meaning of `CIdSpec::matches`. */
  predicate Matches(spec: CIdSpec, cid: CId)
  {
    match spec
    case All => true
    case Only(x) => cid == x
    case Except(x) => cid != x
  }

  /** The reliability class a message type is registered with. */
  datatype Transport = TCP | UDP

  datatype MsgRegError = TypeAlreadyRegistered

  /** A connected client resource; `open` is what `Client::open` reports. */
  datatype ClientRes = ClientRes(open: bool)

  /** A listening server resource. */
  datatype ServerRes = ServerRes

  /** A message table under construction: every registered message type
      with its transport, in order. `K` stands for Rust's type identity.
      A type may be registered at most once. */
  class MsgTable<K(==)> {
    var entries: seq<(K, Transport)>

    ghost predicate Valid()
      reads this
    {
      forall i, j :: 0 <= i < j < |entries| ==> entries[i].0 != entries[j].0
    }

    predicate IsRegistered(t: K)
      reads this
    {
      exists i :: 0 <= i < |entries| && entries[i].0 == t
    }

    constructor ()
      ensures Valid() && entries == []
    {
      entries := [];
    }

    /** `MsgTable::register`: a duplicate registration is refused and leaves
        the table as it was. */
    method Register(t: K, transport: Transport) returns (r: Outcome<MsgRegError>)
      requires Valid()
      modifies this
      ensures Valid()
      ensures r == Pass <==> !old(IsRegistered(t))
      ensures r.Fail? ==> r.error == TypeAlreadyRegistered
      ensures entries == if r.Pass? then old(entries) + [(t, transport)] else old(entries)
    {
      if IsRegistered(t) {
        return Fail(TypeAlreadyRegistered);
      }
      entries := entries + [(t, transport)];
      r := Pass;
    }
  }
}
