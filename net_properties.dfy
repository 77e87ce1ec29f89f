/** What one replication pass promises, stated over its specification
    functions: last writer wins, no match leaves the component alone,
    publishing never changes it, a hub applies before it publishes, and a
    client rejects the hub direction. */
module NetProperties {
  import opened Base
  import opened Pigeon
  import opened NetTypes
  import opened NetComp
  import opened Net

  /** Server, following side of `From(spec)` or `ToFrom(_, spec)`: the
      component becomes the payload of the last message, in receive order,
      that `spec` accepts and that carries the entity's id. */
  lemma ServerLastWriterWins<T, M>(e: EntityView<T>, msgs: ServerInbox<M>, client: Option<ClientInbox<M>>,
                                   from: M -> T, spec: CIdSpec, k: nat)
    requires InQuery(e) && FollowSpec(e.comp.value.dir) == Some(spec)
    requires k < |msgs| && ServerAccepts(msgs[k], spec, e.net.value.id)
    requires forall j :: k < j < |msgs| ==> !ServerAccepts(msgs[j], spec, e.net.value.id)
    ensures EntityAfter(Some(msgs), client, e, from) == e.(value := Some(from(msgs[k].1.msg)))
  {
    var r := ServerPick(msgs, spec, e.net.value.id);
    assert r.Some?;
    assert r.value == k;
  }

  /** The message that arrived last wins, whatever arrived before it. */
  lemma ServerLastArrivalWins<T, M>(e: EntityView<T>, earlier: ServerInbox<M>, cid: CId, payload: M,
                                    client: Option<ClientInbox<M>>, from: M -> T, spec: CIdSpec)
    requires InQuery(e) && FollowSpec(e.comp.value.dir) == Some(spec) && Matches(spec, cid)
    ensures EntityAfter(Some(earlier + [(cid, NetCompMsg(e.net.value.id, payload))]), client, e, from)
            == e.(value := Some(from(payload)))
  {
    var msgs := earlier + [(cid, NetCompMsg(e.net.value.id, payload))];
    ServerLastWriterWins(e, msgs, client, from, spec, |msgs| - 1);
  }

  /** Server: when no message is accepted for the entity, its component is
      left as it was. */
  lemma ServerNoMatchUnchanged<T, M>(e: EntityView<T>, msgs: ServerInbox<M>, client: Option<ClientInbox<M>>,
                                     from: M -> T, spec: CIdSpec)
    requires InQuery(e) && FollowSpec(e.comp.value.dir) == Some(spec)
    requires forall j :: 0 <= j < |msgs| ==> !ServerAccepts(msgs[j], spec, e.net.value.id)
    ensures EntityAfter(Some(msgs), client, e, from) == e
  {
  }

  /** Client, `From(_)`: the last received message with the entity's id
      wins. */
  lemma ClientLastWriterWins<T, M>(e: EntityView<T>, msgs: ClientInbox<M>, from: M -> T, k: nat)
    requires InQuery(e) && e.comp.value.dir.From?
    requires k < |msgs| && msgs[k].id == e.net.value.id
    requires forall j :: k < j < |msgs| ==> msgs[j].id != e.net.value.id
    ensures EntityAfter(None, Some(msgs), e, from) == e.(value := Some(from(msgs[k].msg)))
  {
    var r := ClientPick(msgs, e.net.value.id);
    assert r.Some?;
    assert r.value == k;
  }

  /** Client, `From(_)`: nothing received for the entity leaves it alone. */
  lemma ClientNoMatchUnchanged<T, M>(e: EntityView<T>, msgs: ClientInbox<M>, from: M -> T)
    requires InQuery(e) && e.comp.value.dir.From?
    requires forall j :: 0 <= j < |msgs| ==> msgs[j].id != e.net.value.id
    ensures EntityAfter(None, Some(msgs), e, from) == e
  {
  }

  /** Client, `From(_)`: the spec plays no part. */
  lemma ClientIgnoresSpec<T, M>(e: EntityView<T>, msgs: ClientInbox<M>, from: M -> T, s1: CIdSpec, s2: CIdSpec)
    requires InQuery(e)
    ensures EntityAfter(None, Some(msgs), e.(comp := Some(NetComp(From(s1)))), from).value
         == EntityAfter(None, Some(msgs), e.(comp := Some(NetComp(From(s2)))), from).value
  {
  }

  /** `To(spec)` never modifies the component, on any peer. */
  lemma ToNeverModifies<T, M>(server: Option<ServerInbox<M>>, client: Option<ClientInbox<M>>,
                              e: EntityView<T>, from: M -> T)
    requires InQuery(e) && e.comp.value.dir.To?
    ensures EntityAfter(server, client, e, from) == e
  {
  }

  /** Server, `To(spec)`: exactly one send, to `spec`, of the current value. */
  lemma ServerToPublishesOnce<T, M>(e: EntityView<T>, msgs: ServerInbox<M>, client: Option<ClientInbox<M>>,
                                    into: T -> M, from: M -> T, spec: CIdSpec)
    requires InQuery(e) && e.comp.value.dir == To(spec)
    ensures EntitySends(Some(msgs), client, e, into, from)
            == [SendSpec(spec, NetCompMsg(e.net.value.id, into(e.value.value)))]
  {
  }

  /** Client, `To(_)`: exactly one send, to the server, of the current value. */
  lemma ClientToPublishesOnce<T, M>(e: EntityView<T>, msgs: ClientInbox<M>, into: T -> M, from: M -> T)
    requires InQuery(e) && e.comp.value.dir.To?
    ensures EntitySends(None, Some(msgs), e, into, from)
            == [SendToServer(NetCompMsg(e.net.value.id, into(e.value.value)))]
  {
  }

  /** Server, `ToFrom(to, from)`: the single send goes to `to` and carries
      the value as it is after the apply step. */
  lemma ServerToFromAppliesThenPublishes<T, M>(e: EntityView<T>, msgs: ServerInbox<M>,
                                               client: Option<ClientInbox<M>>, into: T -> M, from: M -> T,
                                               toSpec: CIdSpec, fromSpec: CIdSpec)
    requires InQuery(e) && e.comp.value.dir == ToFrom(toSpec, fromSpec)
    ensures EntityAfter(Some(msgs), client, e, from).value.Some?
    ensures EntitySends(Some(msgs), client, e, into, from)
            == [SendSpec(toSpec, NetCompMsg(e.net.value.id, into(EntityAfter(Some(msgs), client, e, from).value.value)))]
  {
  }

  /** A client rejects `ToFrom`: the component is untouched, nothing is sent. */
  lemma ClientToFromInert<T, M>(e: EntityView<T>, msgs: ClientInbox<M>, into: T -> M, from: M -> T)
    requires InQuery(e) && e.comp.value.dir.ToFrom?
    ensures EntityAfter(None, Some(msgs), e, from) == e
    ensures EntitySends(None, Some(msgs), e, into, from) == []
  {
  }

  /** An entity outside the query (one lacking its id, its marker or the
      component) is neither written nor published. */
  lemma OutsideQueryUntouched<T, M>(server: Option<ServerInbox<M>>, client: Option<ClientInbox<M>>,
                                    e: EntityView<T>, into: T -> M, from: M -> T)
    requires !InQuery(e)
    ensures EntityAfter(server, client, e, from) == e
    ensures EntitySends(server, client, e, into, from) == []
  {
  }

  /** A pass writes only the component: the id and the marker stay, and an
      entity keeps or lacks the component as before. */
  lemma OnlyTheComponentChanges<T, M>(server: Option<ServerInbox<M>>, client: Option<ClientInbox<M>>,
                                      e: EntityView<T>, from: M -> T)
    ensures EntityAfter(server, client, e, from).net == e.net
    ensures EntityAfter(server, client, e, from).comp == e.comp
    ensures EntityAfter(server, client, e, from).value.Some? == e.value.Some?
  {
  }

  /** Whether an entity publishes in a pass: `To` or `ToFrom` on a server,
      `To` alone on a client. */
  predicate Publishes<T, M>(server: Option<ServerInbox<M>>, client: Option<ClientInbox<M>>, e: EntityView<T>)
  {
    InQuery(e) &&
    if server.Some? then !e.comp.value.dir.From?
    else client.Some? && e.comp.value.dir.To?
  }

  /** `o` carries the id of some entity of `es` that publishes in the role. */
  ghost predicate FromPublisher<T, M>(server: Option<ServerInbox<M>>, client: Option<ClientInbox<M>>,
                                      es: seq<EntityView<T>>, o: Outgoing<M>)
  {
    exists i :: 0 <= i < |es| && Publishes(server, client, es[i]) && o.msg.id == es[i].net.value.id
  }

  /** Every send of a pass carries the id of an entity of the pass that
      publishes in that role. */
  lemma {:induction false} SendsComeFromPublishers<T, M>(server: Option<ServerInbox<M>>,
                                                         client: Option<ClientInbox<M>>,
                                                         es: seq<EntityView<T>>, into: T -> M, from: M -> T)
    ensures forall o :: o in PassSends(server, client, es, into, from) ==> FromPublisher(server, client, es, o)
  {
    if es != [] {
      var n := |es| - 1;
      var pre := es[..n];
      SendsComeFromPublishers(server, client, pre, into, from);
      var p := PassSends(server, client, pre, into, from);
      var last := EntitySends(server, client, es[n], into, from);
      assert PassSends(server, client, es, into, from) == p + last;
      forall o | o in p + last
        ensures FromPublisher(server, client, es, o)
      {
        if o in p {
          assert FromPublisher(server, client, pre, o);
          var i :| 0 <= i < |pre| && Publishes(server, client, pre[i]) && o.msg.id == pre[i].net.value.id;
          assert es[i] == pre[i];
        } else {
          assert Publishes(server, client, es[n]) && o.msg.id == es[n].net.value.id;
        }
      }
    }
  }

  /** Number of publishing entities among `es`. */
  function PublisherCount<T, M>(server: Option<ServerInbox<M>>, client: Option<ClientInbox<M>>,
                                es: seq<EntityView<T>>): nat
  {
    if es == [] then 0
    else PublisherCount(server, client, es[..|es| - 1]) + (if Publishes(server, client, es[|es| - 1]) then 1 else 0)
  }

  /** A pass sends exactly one message per publishing entity. */
  lemma {:induction false} OneSendPerPublisher<T, M>(server: Option<ServerInbox<M>>,
                                                     client: Option<ClientInbox<M>>,
                                                     es: seq<EntityView<T>>, into: T -> M, from: M -> T)
    ensures |PassSends(server, client, es, into, from)| == PublisherCount(server, client, es)
  {
    if es != [] {
      OneSendPerPublisher(server, client, es[..|es| - 1], into, from);
    }
  }
}
