/**
 * The communicator interface of the graph server
 * (src/graph-server/commmanager/resource_comm.hpp): the backend tags, and
 * what a backend must supply. A backend is a record of its operations over
 * its own state `S`: setAsync, NNCompute and NNSync are required fields;
 * prefetchWeights and getRelaunchCnt are optional, and a backend that leaves
 * them out gets the interface's defaults.
 */
module ResourceComm {
  import opened Wire
  import opened Wrappers
  import opened ChunkHeader

  /** The anonymous enum { LAMBDA, GPU, CPU }. */
  datatype Backend = LAMBDA | GPU | CPU

  /** The integer each tag stands for. */
  function Tag(b: Backend): (t: nat)
    ensures t < 3
  {
    match b
    case LAMBDA => 0
    case GPU => 1
    case CPU => 2
  }

  /** The backend an integer names, if any. */
  function BackendOfTag(t: int): (b: Option<Backend>)
    ensures b.Some? <==> 0 <= t < 3
  {
    if t == 0 then Some(LAMBDA) else if t == 1 then Some(GPU) else if t == 2 then Some(CPU) else None
  }

  /** The tags are distinct: each backend is named by its tag and by no other. */
  lemma TagRoundTrip(b: Backend, t: int)
    ensures BackendOfTag(Tag(b)) == Some(b)
    ensures BackendOfTag(t) == Some(b) ==> t == Tag(b)
  {
  }

  /** A communicator: which backend, its required operations and its optional overrides. */
  datatype Comm<!S> = Comm(backend: Backend,
                          setAsync: (S, bool, u32) -> S,
                          nnCompute: (S, Chunk) -> S,
                          nnSync: S -> S,
                          prefetchWeights: Option<S -> S>,
                          relaunchCnt: Option<S -> u32>)

  /** prefetchWeights(): by default it does nothing. */
  function PrefetchWeights<S>(c: Comm<S>, s: S): (t: S)
    ensures c.prefetchWeights.None? ==> t == s
    ensures c.prefetchWeights.Some? ==> t == c.prefetchWeights.value(s)
  {
    match c.prefetchWeights
    case None => s
    case Some(f) => f(s)
  }

  /** getRelaunchCnt(): by default 0. */
  function GetRelaunchCnt<S>(c: Comm<S>, s: S): (n: u32)
    ensures c.relaunchCnt.None? ==> n == 0
    ensures c.relaunchCnt.Some? ==> n == c.relaunchCnt.value(s)
  {
    match c.relaunchCnt
    case None => 0
    case Some(f) => f(s)
  }
}
