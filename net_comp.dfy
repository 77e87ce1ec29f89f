/** The marker component that asks the plugin to synchronise a component
    `T` as wire type `M`. The type pair carries no data at run time, so a
    `NetComp` is its direction alone; which `(T, M)` it is for is fixed by
    the replication pass that reads it. */
module NetComp {
  import opened Pigeon
  import opened NetTypes

  datatype NetComp = NetComp(dir: NetDirection)

  /** `NetComp::new`. */
  function New(dir: NetDirection): (c: NetComp)
    ensures c.dir == dir
  {
    NetComp(dir)
  }

  /** `NetComp::default()`: follow every peer. */
  function Default(): (c: NetComp)
    ensures c.dir == From(All)
  {
    NetComp(From(All))
  }

  lemma DefaultIsNewFromAll()
    ensures Default() == New(From(All))
  {
  }

  /** Equality of two markers is equality of their directions. */
  lemma EqualIffSameDirection(a: NetComp, b: NetComp)
    ensures a == b <==> a.dir == b.dir
  {
  }
}
