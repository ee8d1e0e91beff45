/** Which start each completion in a trace belongs to, although MPI gives the same handle to one request after
    another. Everything here is about a sequence of roles, so it holds of recorded calls and of stored events. */
module Requests {
  import opened Types
  import opened Codec
  import opened Dispatcher
  import opened Sequences

  // What a record says about a request: nothing, that it was started, that it was found unfinished, or that it is over.
  datatype Role = Unrelated | Starts(req: Int32) | Polls(req: Int32) | Completes(req: Int32)

  predicate IsStart(kind: MpiCallType) {
    kind in {Isend, Irecv, Ibarrier, Ibcast, Igather, Ireduce, Iscatter}
  }

  function CallRole(c: MpiCall): Role {
    match c.kind
    case Isend | Irecv | Ibarrier | Ibcast | Igather | Ireduce | Iscatter => Starts(c.req)
    case Test => if c.finished then Completes(c.req) else Polls(c.req)
    case Wait => Completes(c.req)
    case _ => Unrelated
  }

  function EventRole(e: Event): Role {
    match e.Kind()
    case Isend | Irecv | Ibarrier | Ibcast | Igather | Ireduce | Iscatter => Starts(e.req)
    case Test => if e.finished then Completes(e.req) else Polls(e.req)
    case Wait => Completes(e.req)
    case _ => Unrelated
  }

  // The stored event says of the request what the call did.
  lemma RoleStored(c: MpiCall)
    requires Storable(c)
    ensures EventRole(Dispatch(c)) == CallRole(c)
  {
    DispatchKind(c);
    if IsStart(c.kind) || c.kind == Test || c.kind == Wait {
      DispatchField(c, FReq);
      DispatchField(c, FFinished);
    }
  }

  predicate About(role: Role, h: Int32) {
    !role.Unrelated? && role.req == h
  }

  // h was given to a request at i, and up to position n nothing but unfinished tests happened on it.
  ghost predicate Open(roles: seq<Role>, i: int, n: int, h: Int32) {
    && 0 <= i < n <= |roles| && roles[i] == Starts(h)
    && forall k :: i < k < n && About(roles[k], h) ==> roles[k].Polls?
  }

  // The completion at j is the one that ends the request started at i, as far as the trace can tell.
  ghost predicate Paired(roles: seq<Role>, i: int, j: int, nullReq: Int32) {
    0 <= j < |roles| && roles[j].Completes? && roles[j].req != nullReq && Open(roles, i, j, roles[j].req)
  }

  // ---------- reading the pairs off a trace is never ambiguous ----------

  lemma OpenUnique(roles: seq<Role>, i: int, i': int, n: int, h: Int32)
    requires Open(roles, i, n, h) && Open(roles, i', n, h)
    ensures i == i'
  {
    assert About(roles[i], h) && About(roles[i'], h);
  }

  // A completion has at most one start and a start at most one completion.
  lemma PairedUnique(roles: seq<Role>, i: int, j: int, i': int, j': int, nullReq: Int32)
    requires Paired(roles, i, j, nullReq) && Paired(roles, i', j', nullReq)
    ensures i == i' <==> j == j'
  {
    if j == j' {
      OpenUnique(roles, i, i', j, roles[j].req);
    }
    if i == i' {
      assert About(roles[j], roles[j].req) && About(roles[j'], roles[j'].req);
    }
  }

  // ---------- how one more record changes that ----------

  lemma OpenAfter(roles: seq<Role>, role: Role, i: int, h: Int32)
    ensures Open(roles + [role], i, |roles| + 1, h) <==>
              || (i == |roles| && role == Starts(h))
              || (Open(roles, i, |roles|, h) && (About(role, h) ==> role.Polls?))
  {
    var longer := roles + [role];
    if Open(longer, i, |roles| + 1, h) && i < |roles| {
      assert forall k :: i < k < |roles| ==> longer[k] == roles[k];
      assert longer[|roles|] == role;
    }
    if Open(roles, i, |roles|, h) && (About(role, h) ==> role.Polls?) {
      assert forall k :: i < k < |roles| ==> longer[k] == roles[k];
    }
  }

  lemma OpenPrefix(roles: seq<Role>, role: Role, i: int, n: int, h: Int32)
    requires n <= |roles|
    ensures Open(roles + [role], i, n, h) <==> Open(roles, i, n, h)
  {
    var longer := roles + [role];
    assert forall k :: 0 <= k < |roles| ==> longer[k] == roles[k];
  }

  lemma PairedAfter(roles: seq<Role>, role: Role, i: int, j: int, nullReq: Int32)
    ensures Paired(roles + [role], i, j, nullReq) <==>
              if j == |roles| then role.Completes? && role.req != nullReq && Open(roles, i, |roles|, role.req)
              else Paired(roles, i, j, nullReq)
  {
    if 0 <= j <= |roles| && (roles + [role])[j].Completes? {
      OpenPrefix(roles, role, i, j, (roles + [role])[j].req);
    }
  }

  // ---------- the records about one handle ----------

  // Start, unfinished tests, completion, and again; true if a request is running at the end, None if the pattern
  // is broken.
  function Stage(roles: seq<Role>): Option<bool> {
    if roles == [] then Some(false)
    else
      var running :- Stage(roles[..|roles| - 1]);
      match roles[|roles| - 1]
      case Starts(_) => if running then None else Some(true)
      case Polls(_) => if running then Some(true) else None
      case Completes(_) => if running then Some(false) else None
      case Unrelated => None
  }

  function OnHandle(h: Int32): Role -> bool {
    (role: Role) => About(role, h)
  }

  lemma StageAfter(roles: seq<Role>, role: Role, h: Int32)
    ensures Stage(Filter(roles + [role], OnHandle(h))) ==
            if !About(role, h) then Stage(Filter(roles, OnHandle(h)))
            else match Stage(Filter(roles, OnHandle(h)))
                 case None => None
                 case Some(running) =>
                   if role.Starts? == running then None else Some(!role.Completes?)
  {
    FilterConcat(roles, [role], OnHandle(h));
    var before := Filter(roles, OnHandle(h));
    if About(role, h) {
      assert Filter([role], OnHandle(h)) == [role];
      assert (before + [role])[..|before|] == before;
    } else {
      assert Filter([role], OnHandle(h)) == [];
      assert before + [] == before;
    }
  }

  lemma {:induction false} StagePrefix(roles: seq<Role>, more: seq<Role>, h: Int32)
    requires Stage(Filter(roles + more, OnHandle(h))).Some?
    ensures Stage(Filter(roles, OnHandle(h))).Some?
  {
    if more == [] {
      assert roles + more == roles;
    } else {
      var front, last := more[..|more| - 1], more[|more| - 1];
      assert roles + more == (roles + front) + [last];
      StageAfter(roles + front, last, h);
      StagePrefix(roles, front, h);
    }
  }

  // If the completion of a running request is missing and the next start on its handle is there, the pattern is broken
  // for good.
  lemma MissingCompletion(roles: seq<Role>, h: Int32, more: seq<Role>)
    requires Stage(Filter(roles, OnHandle(h))) == Some(true)
    ensures Stage(Filter(roles + [Starts(h)] + more, OnHandle(h))) == None
  {
    StageAfter(roles, Starts(h), h);
    if Stage(Filter(roles + [Starts(h)] + more, OnHandle(h))).Some? {
      StagePrefix(roles + [Starts(h)], more, h);
    }
  }
}
