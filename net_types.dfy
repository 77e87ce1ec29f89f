/** The data types of the component-replication plugin: the sync direction,
    the cross-peer entity id and the wire envelope. */
module NetTypes {
  import opened Base
  import opened Pigeon

  /** Which way a component is synchronised. On a server the specs choose
      the peers sent to / accepted from; a client has only the server. */
  datatype NetDirection =
    | To(to: CIdSpec)
    | From(from: CIdSpec)
    | ToFrom(toSpec: CIdSpec, fromSpec: CIdSpec)

  /** The id that names one replicated entity on every peer. */
  datatype NetEntity = NetEntity(id: u64)

  function NewNetEntity(id: u64): (e: NetEntity)
    ensures e.id == id
  {
    NetEntity(id)
  }

  /** The wire envelope: a component value of wire type `M` tagged with the
      id of the entity it belongs to. */
  datatype NetCompMsg<M> = NetCompMsg(id: u64, msg: M)

  function NewNetCompMsg<M>(id: u64, msg: M): (m: NetCompMsg<M>)
    ensures m.id == id && m.msg == msg
  {
    NetCompMsg(id, msg)
  }
}
