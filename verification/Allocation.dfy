/** Which local port a remote service gets: internal/tunnel/alloc.go, on values.

    `Env` is what the rest of the machine does during one call: the ports it keeps
    from us, the port it would hand out for "any port", and the words of its refusal. */
module Allocation {
  import opened Wrappers

  datatype Env = Env(denied: set<int>, spare: Option<int>, cause: string)

  datatype AllocError =
    | Conflict(port: int)
    | Exhausted(port: int, cause: string)

  datatype Outcome =
    | Bound(local: int, remapped: bool)
    | Refused(err: AllocError)

  /** Listening on p succeeds: it is a port number, we do not hold it already, nor does anybody else. */
  predicate Free(held: set<int>, env: Env, p: int) {
    1 <= p <= 65535 && p !in held && p !in env.denied
  }

  /** The ports worth trying, best first: the pin, the remembered port, the mirrored port. */
  function Candidates(sticky: map<int, int>, remote: int, pinned: int): (cs: seq<int>)
    ensures |cs| > 0 && cs[|cs| - 1] == remote
  {
    (if pinned > 0 then [pinned] else [])
    + (if remote in sticky && sticky[remote] != remote then [sticky[remote]] else [])
    + [remote]
  }

  /** The first candidate that can be had. */
  function FirstFree(held: set<int>, env: Env, cs: seq<int>): (r: Option<int>)
    ensures r.Some? ==> r.value in cs && Free(held, env, r.value)
    ensures r.None? ==> forall c | c in cs :: !Free(held, env, c)
  {
    if cs == [] then None
    else if Free(held, env, cs[0]) then Some(cs[0])
    else FirstFree(held, env, cs[1..])
  }

  lemma FirstFreeHead(held: set<int>, env: Env, cs: seq<int>)
    requires cs != []
    ensures Free(held, env, cs[0]) ==> FirstFree(held, env, cs) == Some(cs[0])
    ensures |cs| > 1 && !Free(held, env, cs[0]) && Free(held, env, cs[1]) ==> FirstFree(held, env, cs) == Some(cs[1])
  {
    if |cs| > 1 {
      assert cs[1..][0] == cs[1];
    }
  }

  /** The outcome of asking for a local port. */
  function Answer(samePort: bool, sticky: map<int, int>, held: set<int>, remote: int, pinned: int, env: Env): Outcome {
    var cs := Candidates(sticky, remote, pinned);
    match FirstFree(held, env, cs)
    case Some(p) => Bound(p, p != remote)
    case None =>
      if samePort then Refused(Conflict(cs[0]))
      else if env.spare.Some? && Free(held, env, env.spare.value) then Bound(env.spare.value, true)
      else Refused(Exhausted(cs[0], env.cause))
  }

  /** Whatever is bound was free, and the remap mark tells the truth about it. */
  lemma AnswerIsHonest(samePort: bool, sticky: map<int, int>, held: set<int>, remote: int, pinned: int, env: Env)
    ensures var a := Answer(samePort, sticky, held, remote, pinned, env);
            a.Bound? ==> Free(held, env, a.local) && (a.remapped <==> a.local != remote)
  {
    var cs := Candidates(sticky, remote, pinned);
    assert cs[|cs| - 1] in cs;
  }

  lemma OneCandidate(held: set<int>, env: Env, x: int)
    ensures FirstFree(held, env, [x]) == if Free(held, env, x) then Some(x) else None
  {
    assert [x][1..] == [];
  }

  /** The outcome in terms of ports: the pin, if there is one and it can be had; else the remembered port, else the mirrored
      one, else whatever the system hands out, unless ports must be the same. A refusal names the first port tried. */
  lemma AnswerMeans(samePort: bool, sticky: map<int, int>, held: set<int>, remote: int, pinned: int, env: Env)
    ensures var can := (p: int) => 1 <= p <= 65535 && p !in held && p !in env.denied;
            var (kept, a) := (remote in sticky, Answer(samePort, sticky, held, remote, pinned, env));
            var first := if pinned > 0 then pinned else if kept then sticky[remote] else remote;
            if pinned > 0 && can(pinned) then a == Bound(pinned, pinned != remote)
            else if kept && can(sticky[remote]) then a == Bound(sticky[remote], sticky[remote] != remote)
            else if can(remote) then a == Bound(remote, false)
            else if samePort then a == Refused(Conflict(first))
            else if env.spare.Some? && can(env.spare.value) then a == Bound(env.spare.value, true)
            else a == Refused(Exhausted(first, env.cause))
  {
    hide FirstFree;
    var mirrored := [remote];
    var known := if remote in sticky && sticky[remote] != remote then [sticky[remote]] + mirrored else mirrored;
    assert Candidates(sticky, remote, pinned) == if pinned > 0 then [pinned] + known else known;
    OneCandidate(held, env, remote);
    if remote in sticky && sticky[remote] != remote {
      MoreCandidates(held, env, sticky[remote], mirrored);
    }
    MoreCandidates(held, env, pinned, known);
  }

  lemma MoreCandidates(held: set<int>, env: Env, x: int, cs: seq<int>)
    ensures FirstFree(held, env, [x] + cs) == if Free(held, env, x) then Some(x) else FirstFree(held, env, cs)
  {
    assert ([x] + cs)[1..] == cs;
  }
}
