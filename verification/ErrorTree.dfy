/** The service's errors: mutable nodes that can be locked, wrapping each other and foreign errors. */
module ErrorTree {
  import opened Schema
  import opened Failures

  datatype PgError = PgError(state: SqlState, column: string, constraint: string)

  /**
   An error value. Logic(i) points to the i-th LogicError ever allocated; a foreign error wraps nothing and may be
   a PgError; an annotated error is fmt.Errorf with %w.
   */
  datatype Ref = Logic(index: nat) | Foreign(id: nat, pg: Option<PgError>) | Annotated(id: nat, inner: Ref)

  /** pgx.ErrNoRows */
  const NO_ROWS: Ref := Foreign(0, None)

  /** The fields of a LogicError. */
  datatype Node = Node(onlyRead: bool, code: int, message: string, details: Option<seq<string>>,
                       wraps: seq<Ref>, data: Option<string>)

  // ----- the calls -----

  datatype Update =
    | Wrap(err: Ref)
    | Lock
    | SetMessage(text: string)
    | AddDetails(texts: seq<string>)
    | SetData(value: string)

  datatype Call = NewFrom(parent: nat) | On(node: nat, update: Update)

  predicate Possible(nodes: seq<Node>, call: Call) {
    match call
    case NewFrom(parent) => parent < |nodes|
    case On(node, _) => node < |nodes|
  }

  /** The receiver after the call. Only Lock ignores the lock; details are only added to existing ones. */
  function Changed(node: Node, update: Update): Node {
    match update
    case Lock => node.(onlyRead := true)
    case Wrap(err) => if node.onlyRead then node else node.(wraps := node.wraps + [err])
    case SetMessage(text) => if node.onlyRead then node else node.(message := text)
    case AddDetails(texts) =>
      if node.onlyRead || node.details.None? then node else node.(details := Some(node.details.value + texts))
    case SetData(value) => if node.onlyRead then node else node.(data := Some(value))
  }

  function Derived(parent: Node, index: nat): Node {
    Node(false, parent.code, parent.message, parent.details, [Logic(index)], None)
  }

  function Apply(nodes: seq<Node>, call: Call): seq<Node>
    requires Possible(nodes, call)
  {
    match call
    case NewFrom(parent) => nodes + [Derived(nodes[parent], parent)]
    case On(node, update) => nodes[node := Changed(nodes[node], update)]
  }

  ghost predicate Leads(nodes: seq<Node>, calls: seq<Call>, nodes': seq<Node>)
    decreases |calls|
  {
    if calls == [] then nodes == nodes'
    else Possible(nodes, calls[0]) && Leads(Apply(nodes, calls[0]), calls[1..], nodes')
  }

  /** No sequence of calls, on whatever is derived from it, changes a locked error. */
  lemma {:induction false} LockedNeverChanges(nodes: seq<Node>, calls: seq<Call>, nodes': seq<Node>, i: nat)
    requires Leads(nodes, calls, nodes') && i < |nodes| && nodes[i].onlyRead
    ensures i < |nodes'| && nodes'[i] == nodes[i]
    decreases |calls|
  {
    if calls != [] {
      LockedNeverChanges(Apply(nodes, calls[0]), calls[1..], nodes', i);
    }
  }

  // ----- acyclic by order of allocation -----

  /** One more than the place, in the order of allocation, of the LogicError an error value leads to. */
  function Rank(err: Ref): nat {
    match err
    case Logic(index) => index + 1
    case Foreign(_, _) => 0
    case Annotated(_, inner) => Rank(inner)
  }

  /** The number of annotations around an error. */
  function Depth(err: Ref): nat {
    match err
    case Annotated(_, inner) => Depth(inner) + 1
    case _ => 0
  }

  /** The error leads only to LogicErrors allocated before number n. */
  predicate Older(err: Ref, n: nat) {
    Rank(err) <= n
  }

  ghost predicate Ordered(nodes: seq<Node>) {
    forall i, err :: 0 <= i < |nodes| && err in nodes[i].wraps ==> Older(err, i)
  }

  /** Every Wrap in the sequence wraps an error older than its receiver. */
  ghost predicate WrapsOlder(calls: seq<Call>) {
    forall call :: call in calls && call.On? && call.update.Wrap? ==> Older(call.update.err, call.node)
  }

  lemma {:induction false} OrderIsKept(nodes: seq<Node>, calls: seq<Call>, nodes': seq<Node>)
    requires Ordered(nodes) && Leads(nodes, calls, nodes') && WrapsOlder(calls)
    ensures Ordered(nodes')
    decreases |calls|
  {
    if calls != [] {
      var call := calls[0];
      assert call in calls;
      assert Ordered(Apply(nodes, call));
      OrderIsKept(Apply(nodes, call), calls[1..], nodes');
    }
  }

  // ----- errors.Is -----

  /** LogicError.Is: the error itself, or one it wraps directly. */
  predicate IsDirectly(nodes: seq<Node>, index: nat, target: Ref)
    requires index < |nodes|
  {
    Logic(index) == target || target in nodes[index].wraps
  }

  /** errors.Is: the error, its Is method, then everything it unwraps to. It ends because the order is kept. */
  predicate Is(nodes: seq<Node>, err: Ref, target: Ref)
    requires Ordered(nodes) && Older(err, |nodes|)
    decreases Rank(err), err
  {
    err == target ||
    match err
    case Logic(index) =>
      || IsDirectly(nodes, index, target)
      || exists child :: child in nodes[index].wraps && Is(nodes, child, target)
    case Foreign(_, _) => false
    case Annotated(_, inner) => Is(nodes, inner, target)
  }

  /** One unwrapping step. */
  ghost predicate Wraps(nodes: seq<Node>, err: Ref, child: Ref) {
    match err
    case Logic(index) => index < |nodes| && child in nodes[index].wraps
    case Foreign(_, _) => false
    case Annotated(_, inner) => child == inner
  }

  ghost predicate Path(nodes: seq<Node>, path: seq<Ref>, err: Ref, target: Ref) {
    && path != [] && path[0] == err && path[|path| - 1] == target
    && forall i :: 0 <= i < |path| - 1 ==> Wraps(nodes, path[i], path[i + 1])
  }

  ghost predicate Reachable(nodes: seq<Node>, err: Ref, target: Ref) {
    exists path :: Path(nodes, path, err, target)
  }

  lemma ReachStep(nodes: seq<Node>, err: Ref, child: Ref, target: Ref)
    requires Wraps(nodes, err, child) && Reachable(nodes, child, target)
    ensures Reachable(nodes, err, target)
  {
    var path :| Path(nodes, path, child, target);
    var longer := [err] + path;
    assert forall i :: 0 < i < |longer| - 1 ==> longer[i] == path[i - 1] && longer[i + 1] == path[i];
    assert Path(nodes, longer, err, target);
  }

  lemma {:induction false} FoundIsReachable(nodes: seq<Node>, err: Ref, target: Ref)
    requires Ordered(nodes) && Older(err, |nodes|) && Is(nodes, err, target)
    ensures Reachable(nodes, err, target)
    decreases Rank(err), err
  {
    assert Path(nodes, [target], target, target);
    if err != target {
      match err
      case Annotated(_, inner) =>
        FoundIsReachable(nodes, inner, target);
        ReachStep(nodes, err, inner, target);
      case Logic(index) =>
        if target in nodes[index].wraps {
          ReachStep(nodes, err, target, target);
        } else {
          var child :| child in nodes[index].wraps && Is(nodes, child, target);
          FoundIsReachable(nodes, child, target);
          ReachStep(nodes, err, child, target);
        }
    }
  }

  lemma PathTail(nodes: seq<Node>, path: seq<Ref>, err: Ref, target: Ref)
    requires Path(nodes, path, err, target) && |path| > 1
    ensures Wraps(nodes, err, path[1]) && Path(nodes, path[1..], path[1], target)
  {
    var tail := path[1..];
    assert Wraps(nodes, path[0], path[0 + 1]);
    forall i | 0 <= i < |tail| - 1 ensures Wraps(nodes, tail[i], tail[i + 1]) {
      assert Wraps(nodes, path[i + 1], path[i + 1 + 1]);
    }
  }

  lemma {:induction false} ReachableIsFound(nodes: seq<Node>, path: seq<Ref>, err: Ref, target: Ref)
    requires Ordered(nodes) && Older(err, |nodes|) && Path(nodes, path, err, target)
    ensures Is(nodes, err, target)
    decreases |path|
  {
    if |path| > 1 {
      PathTail(nodes, path, err, target);
      ReachableIsFound(nodes, path[1..], path[1], target);
    }
  }

  /** errors.Is holds of exactly the errors that unwrapping can reach. */
  lemma IsEqualsReachable(nodes: seq<Node>, err: Ref, target: Ref)
    requires Ordered(nodes) && Older(err, |nodes|)
    ensures Is(nodes, err, target) <==> Reachable(nodes, err, target)
  {
    if Is(nodes, err, target) {
      FoundIsReachable(nodes, err, target);
    }
    if Reachable(nodes, err, target) {
      var path :| Path(nodes, path, err, target);
      ReachableIsFound(nodes, path, err, target);
    }
  }

  /** Along a path the rank never grows, and while it stays the same annotations are peeled off. */
  lemma {:induction false} PathsGoDown(nodes: seq<Node>, path: seq<Ref>, err: Ref, target: Ref)
    requires Ordered(nodes) && Older(err, |nodes|) && Path(nodes, path, err, target) && |path| > 1
    ensures Rank(target) < Rank(err) || (Rank(target) == Rank(err) && Depth(target) < Depth(err))
    ensures err != target
    decreases |path|
  {
    PathTail(nodes, path, err, target);
    if |path| > 2 {
      PathsGoDown(nodes, path[1..], path[1], target);
    }
  }

  // ----- errors.As -----

  /** errors.As for *pgconn.PgError: the first one met, depth first. */
  function AsPg(nodes: seq<Node>, err: Ref): (found: Option<PgError>)
    requires Ordered(nodes) && Older(err, |nodes|)
    decreases Rank(err), Depth(err) + 1, 0
  {
    match err
    case Foreign(_, pg) => pg
    case Annotated(_, inner) => AsPg(nodes, inner)
    case Logic(index) => AsPgFrom(nodes, index, 0)
  }

  function AsPgFrom(nodes: seq<Node>, index: nat, k: nat): Option<PgError>
    requires Ordered(nodes) && index < |nodes| && k <= |nodes[index].wraps|
    decreases index + 1, 0, |nodes[index].wraps| - k
  {
    if k == |nodes[index].wraps| then None
    else
      var child := nodes[index].wraps[k];
      assert child in nodes[index].wraps;
      var found := AsPg(nodes, child);
      if found.Some? then found else AsPgFrom(nodes, index, k + 1)
  }

  /** Some PgError can be reached by unwrapping. */
  ghost predicate HoldsPg(nodes: seq<Node>, err: Ref) {
    exists id, pg :: Reachable(nodes, err, Foreign(id, Some(pg)))
  }

  /**
   The first PgError in the order of the wrapped errors, depth first: below a LogicError it is the first one of the
   first wrapped error from which any can be reached.
   */
  ghost predicate FirstPg(nodes: seq<Node>, err: Ref, pg: PgError)
    requires Ordered(nodes) && Older(err, |nodes|)
    decreases Rank(err), err
  {
    match err
    case Foreign(_, own) => own == Some(pg)
    case Annotated(_, inner) => FirstPg(nodes, inner, pg)
    case Logic(index) =>
      exists k ::
        && 0 <= k < |nodes[index].wraps|
        && (assert nodes[index].wraps[k] in nodes[index].wraps; FirstPg(nodes, nodes[index].wraps[k], pg))
        && forall j :: 0 <= j < k ==> !HoldsPg(nodes, nodes[index].wraps[j])
  }

  lemma FromFinds(nodes: seq<Node>, index: nat, k: nat, j: nat)
    requires Ordered(nodes) && index < |nodes| && k <= j < |nodes[index].wraps|
    requires nodes[index].wraps[j] in nodes[index].wraps && AsPg(nodes, nodes[index].wraps[j]).Some?
    ensures AsPgFrom(nodes, index, k).Some?
    decreases j - k
  {
    assert nodes[index].wraps[k] in nodes[index].wraps;
    if AsPg(nodes, nodes[index].wraps[k]).None? {
      FromFinds(nodes, index, k + 1, j);
    }
  }

  lemma {:induction false} ReachablePgIsFound(nodes: seq<Node>, path: seq<Ref>, err: Ref, id: nat, pg: PgError)
    requires Ordered(nodes) && Older(err, |nodes|) && Path(nodes, path, err, Foreign(id, Some(pg)))
    ensures AsPg(nodes, err).Some?
    decreases |path|
  {
    if |path| > 1 {
      PathTail(nodes, path, err, Foreign(id, Some(pg)));
      ReachablePgIsFound(nodes, path[1..], path[1], id, pg);
      if err.Logic? {
        var j :| 0 <= j < |nodes[err.index].wraps| && nodes[err.index].wraps[j] == path[1];
        FromFinds(nodes, err.index, 0, j);
      }
    }
  }

  lemma {:induction false} FoundPgIsReachable(nodes: seq<Node>, err: Ref)
    requires Ordered(nodes) && Older(err, |nodes|) && AsPg(nodes, err).Some?
    ensures exists id :: Reachable(nodes, err, Foreign(id, AsPg(nodes, err)))
    decreases Rank(err), Depth(err) + 1, 0
  {
    match err
    case Foreign(id, pg) =>
      assert Path(nodes, [err], err, Foreign(id, AsPg(nodes, err)));
    case Annotated(_, inner) =>
      FoundPgIsReachable(nodes, inner);
      var id :| Reachable(nodes, inner, Foreign(id, AsPg(nodes, inner)));
      ReachStep(nodes, err, inner, Foreign(id, AsPg(nodes, err)));
    case Logic(index) =>
      FoundFromIsReachable(nodes, index, 0);
  }

  lemma {:induction false} FoundFromIsReachable(nodes: seq<Node>, index: nat, k: nat)
    requires Ordered(nodes) && index < |nodes| && k <= |nodes[index].wraps| && AsPgFrom(nodes, index, k).Some?
    ensures exists id :: Reachable(nodes, Logic(index), Foreign(id, AsPgFrom(nodes, index, k)))
    decreases index + 1, 0, |nodes[index].wraps| - k
  {
    var child := nodes[index].wraps[k];
    assert child in nodes[index].wraps;
    if AsPg(nodes, child).Some? {
      FoundPgIsReachable(nodes, child);
      var id :| Reachable(nodes, child, Foreign(id, AsPg(nodes, child)));
      ReachStep(nodes, Logic(index), child, Foreign(id, AsPg(nodes, child)));
    } else {
      FoundFromIsReachable(nodes, index, k + 1);
    }
  }

  /** errors.As finds a PgError exactly when one can be reached, and what it finds can be. */
  lemma AsPgIff(nodes: seq<Node>, err: Ref)
    requires Ordered(nodes) && Older(err, |nodes|)
    ensures AsPg(nodes, err).Some? <==> HoldsPg(nodes, err)
    ensures AsPg(nodes, err).Some? ==> exists id :: Reachable(nodes, err, Foreign(id, AsPg(nodes, err)))
  {
    if AsPg(nodes, err).Some? {
      FoundPgIsReachable(nodes, err);
      var id :| Reachable(nodes, err, Foreign(id, AsPg(nodes, err)));
      assert AsPg(nodes, err) == Some(AsPg(nodes, err).value);
    }
    if HoldsPg(nodes, err) {
      var id, pg :| Reachable(nodes, err, Foreign(id, Some(pg)));
      var path :| Path(nodes, path, err, Foreign(id, Some(pg)));
      ReachablePgIsFound(nodes, path, err, id, pg);
    }
  }

  /** It finds the first one, depth first. */
  lemma {:induction false} AsPgIsFirst(nodes: seq<Node>, err: Ref, pg: PgError)
    requires Ordered(nodes) && Older(err, |nodes|)
    ensures AsPg(nodes, err) == Some(pg) <==> FirstPg(nodes, err, pg)
    decreases Rank(err), Depth(err) + 1, 0
  {
    match err
    case Foreign(_, _) =>
    case Annotated(_, inner) => AsPgIsFirst(nodes, inner, pg);
    case Logic(index) =>
      var wraps := nodes[index].wraps;
      forall k | 0 <= k < |wraps|
        ensures wraps[k] in wraps && (AsPg(nodes, wraps[k]) == Some(pg) <==> FirstPg(nodes, wraps[k], pg))
        ensures AsPg(nodes, wraps[k]).Some? <==> HoldsPg(nodes, wraps[k])
      {
        assert wraps[k] in wraps;
        AsPgIsFirst(nodes, wraps[k], pg);
        AsPgIff(nodes, wraps[k]);
      }
      FromIsFirst(nodes, index, 0, pg);
  }

  lemma {:induction false} FromIsFirst(nodes: seq<Node>, index: nat, k: nat, pg: PgError)
    requires Ordered(nodes) && index < |nodes| && k <= |nodes[index].wraps|
    ensures forall i :: 0 <= i < |nodes[index].wraps| ==> nodes[index].wraps[i] in nodes[index].wraps
    ensures AsPgFrom(nodes, index, k) == Some(pg) <==>
            exists i :: k <= i < |nodes[index].wraps| && AsPg(nodes, nodes[index].wraps[i]) == Some(pg)
                        && forall j :: k <= j < i ==> AsPg(nodes, nodes[index].wraps[j]).None?
    decreases |nodes[index].wraps| - k
  {
    if k < |nodes[index].wraps| {
      assert nodes[index].wraps[k] in nodes[index].wraps;
      FromIsFirst(nodes, index, k + 1, pg);
    }
  }

  // ----- the predeclared errors -----

  /** The place of each predeclared error in the order of allocation. */
  function Place(s: Sentinel): nat {
    match s
    case BadRequest => 0
    case Unauthorized => 1
    case Forbidden => 2
    case NotFound => 3
    case NotAcceptable => 4
    case Conflict => 5
    case UnprocessableEntity => 6
    case Internal => 7
    case ServiceUnavailable => 8
    case TxConcurrentExec => 9
    case StoreNoRows => 10
    case StoreUniqueViolation => 11
    case StoreForeignKeyViolation => 12
    case StoreCheckViolation => 13
    case StoreNotNullViolation => 14
    case StoreRestrictViolation => 15
    case StoreIntegrityViolation => 16
  }

  function Base(code: int, message: string): Node {
    Node(true, code, message, None, [], None)
  }

  const BASES: seq<Node> := [
    Base(400, "bad request"), Base(401, "unauthorized"), Base(403, "forbidden"), Base(404, "not found"),
    Base(406, "not acceptable"), Base(409, "conflict"), Base(422, "unprocessable entity"),
    Base(500, "internal error"), Base(503, "service unavailable")]

  const STORE_ERRORS: seq<Sentinel> := [
    TxConcurrentExec, StoreNoRows, StoreUniqueViolation, StoreForeignKeyViolation,
    StoreCheckViolation, StoreNotNullViolation, StoreRestrictViolation, StoreIntegrityViolation]

  /** NewErrorFrom(base).Lock() for the first k store errors. */
  function DeclareStoreErrors(k: nat): (nodes: seq<Node>)
    requires k <= |STORE_ERRORS|
    ensures |nodes| == |BASES| + k && nodes[..|BASES|] == BASES
    ensures forall i :: 0 <= i < k ==>
              var base := Place(BaseOf(STORE_ERRORS[i]));
              nodes[|BASES| + i] == Derived(BASES[base], base).(onlyRead := true)
  {
    if k == 0 then BASES
    else
      var before := DeclareStoreErrors(k - 1);
      Apply(Apply(before, NewFrom(Place(BaseOf(STORE_ERRORS[k - 1])))), On(|before|, Lock))
  }

  /** All predeclared errors are in place, locked, and wrap their base only. */
  ghost predicate Predeclared(nodes: seq<Node>) {
    forall s: Sentinel :: Place(s) < |nodes| && nodes[Place(s)].onlyRead
      && nodes[Place(s)].wraps == if BaseOf(s) == s then [] else [Logic(Place(BaseOf(s)))]
  }

  lemma StoreErrorsHaveBases(i: nat)
    requires i < |STORE_ERRORS|
    ensures Place(STORE_ERRORS[i]) == |BASES| + i && Place(BaseOf(STORE_ERRORS[i])) < |BASES|
    ensures BaseOf(STORE_ERRORS[i]) != STORE_ERRORS[i]
  {
    assert i == 0 || i == 1 || i == 2 || i == 3 || i == 4 || i == 5 || i == 6 || i == 7;
  }

  lemma PlacesAreTaken(s: Sentinel)
    ensures if BaseOf(s) == s then Place(s) < |BASES|
            else |BASES| <= Place(s) < |BASES| + |STORE_ERRORS| && STORE_ERRORS[Place(s) - |BASES|] == s
  {
  }

  lemma BasesWrapNothing(i: nat)
    requires i < |BASES|
    ensures BASES[i].onlyRead && BASES[i].wraps == []
  {
  }

  /** The error declared at place i is locked, and wraps nothing or a base. */
  lemma DeclaredAt(nodes: seq<Node>, i: nat)
    requires nodes == DeclareStoreErrors(|STORE_ERRORS|) && i < |nodes|
    ensures |nodes| == |BASES| + |STORE_ERRORS| && nodes[i].onlyRead
    ensures nodes[i].wraps == if i < |BASES| then [] else [Logic(Place(BaseOf(STORE_ERRORS[i - |BASES|])))]
  {
    hide BaseOf, Place, DeclareStoreErrors;
    if i < |BASES| {
      assert nodes[i] == nodes[..|BASES|][i];
      BasesWrapNothing(i);
    } else {
      var s := STORE_ERRORS[i - |BASES|];
      StoreErrorsHaveBases(i - |BASES|);
      assert nodes[|BASES| + (i - |BASES|)] == Derived(BASES[Place(BaseOf(s))], Place(BaseOf(s))).(onlyRead := true);
    }
  }

  lemma DeclarationsAreInPlace()
    ensures Predeclared(DeclareStoreErrors(|STORE_ERRORS|)) && Ordered(DeclareStoreErrors(|STORE_ERRORS|))
  {
    hide BaseOf, Place, DeclareStoreErrors;
    var nodes := DeclareStoreErrors(|STORE_ERRORS|);
    DeclaredAt(nodes, 0);
    forall s: Sentinel
      ensures Place(s) < |nodes| && nodes[Place(s)].onlyRead
           && nodes[Place(s)].wraps == if BaseOf(s) == s then [] else [Logic(Place(BaseOf(s)))]
    {
      PlacesAreTaken(s);
      DeclaredAt(nodes, Place(s));
    }
    forall i, err | 0 <= i < |nodes| && err in nodes[i].wraps ensures Older(err, i) {
      DeclaredAt(nodes, i);
      if |BASES| <= i {
        StoreErrorsHaveBases(i - |BASES|);
      }
    }
  }

  /** The predeclared errors stay as declared through every sequence of calls. */
  lemma PredeclaredStays(nodes: seq<Node>, calls: seq<Call>, nodes': seq<Node>)
    requires Predeclared(nodes) && Leads(nodes, calls, nodes')
    ensures Predeclared(nodes')
  {
    forall s: Sentinel ensures Place(s) < |nodes'| && nodes'[Place(s)] == nodes[Place(s)] {
      LockedNeverChanges(nodes, calls, nodes', Place(s));
    }
  }

  /** What a predeclared error is: itself and its base, nothing else. */
  lemma SentinelIs(nodes: seq<Node>, s: Sentinel, target: Ref)
    requires Ordered(nodes) && Predeclared(nodes)
    ensures Place(s) < |nodes| && Place(BaseOf(s)) < |nodes|
    ensures Is(nodes, Logic(Place(s)), target) <==> target == Logic(Place(s)) || target == Logic(Place(BaseOf(s)))
  {
    assert Place(s) < |nodes| && Place(BaseOf(s)) < |nodes|;
    assert BaseOf(BaseOf(s)) == BaseOf(s);
    assert nodes[Place(BaseOf(s))].wraps == [];
    if BaseOf(s) != s {
      assert nodes[Place(s)].wraps == [Logic(Place(BaseOf(s)))];
    }
  }

  // ----- pkg/e/error_helpers.go -----

  /** The answer of a conversion: recognised or not, the error to return, and the LogicErrors after it. */
  datatype Conversion = Conversion(known: bool, error: Ref, nodes: seq<Node>)

  /** NewErrorFrom(parent).Wrap(err), then SetData when there is data. */
  function Build(nodes: seq<Node>, s: Sentinel, err: Ref, data: Option<string>): Conversion
    requires Place(s) < |nodes|
  {
    var index := |nodes|;
    var wrapped := Apply(Apply(nodes, NewFrom(Place(s))), On(index, Wrap(err)));
    Conversion(s != Internal, Logic(index),
               if data.Some? then Apply(wrapped, On(index, SetData(data.value))) else wrapped)
  }

  function DataOf(pg: PgError): Option<string> {
    match pg.state
    case S23505 | S23503 | S23502 => Some(pg.column)
    case S23514 | S23001 | S23000 => Some(pg.constraint)
    case _ => None
  }

  function ErrConvertPgxToLogic(nodes: seq<Node>, err: Ref): Conversion
    requires Ordered(nodes) && Predeclared(nodes) && Older(err, |nodes|)
  {
    if Is(nodes, err, NO_ROWS) then Build(nodes, StoreNoRows, err, None)
    else
      var pg := AsPg(nodes, err);
      if pg.None? then Conversion(false, err, nodes)
      else Build(nodes, SentinelFor(pg.value.state), err, DataOf(pg.value))
  }

  predicate ErrCheckIsTxConcurrentExec(nodes: seq<Node>, err: Ref)
    requires Ordered(nodes) && Older(err, |nodes|)
  {
    var pg := AsPg(nodes, err);
    || (pg.Some? && (pg.value.state == S40001 || pg.value.state == S25P02))
    || Is(nodes, err, Logic(Place(TxConcurrentExec)))
  }

  /** The predeclared error a conversion is built from, when there is one. */
  function Recognised(nodes: seq<Node>, err: Ref): Option<Sentinel>
    requires Ordered(nodes) && Older(err, |nodes|)
  {
    if Is(nodes, err, NO_ROWS) then Some(StoreNoRows)
    else
      var pg := AsPg(nodes, err);
      if pg.None? then None else Some(SentinelFor(pg.value.state))
  }

  /** Allocating newer errors does not change what an older one is. */
  lemma {:induction false} OlderIsUnchanged(nodes: seq<Node>, nodes': seq<Node>, err: Ref, target: Ref)
    requires Ordered(nodes) && Ordered(nodes') && nodes <= nodes' && Older(err, |nodes|)
    ensures Is(nodes', err, target) <==> Is(nodes, err, target)
    decreases Rank(err), err
  {
    match err
    case Foreign(_, _) =>
    case Annotated(_, inner) => OlderIsUnchanged(nodes, nodes', inner, target);
    case Logic(index) =>
      assert nodes'[index] == nodes[index];
      forall child | child in nodes[index].wraps { OlderIsUnchanged(nodes, nodes', child, target); }
  }

  /** An error that wraps two is itself and whatever the two are. */
  lemma IsOfTwo(nodes: seq<Node>, index: nat, x: Ref, y: Ref, target: Ref)
    requires Ordered(nodes) && index < |nodes| && nodes[index].wraps == [x, y]
    ensures Older(x, |nodes|) && Older(y, |nodes|)
    ensures Is(nodes, Logic(index), target) <==> target == Logic(index) || Is(nodes, x, target) || Is(nodes, y, target)
  {
    assert x == nodes[index].wraps[0] && y == nodes[index].wraps[1];
    assert x in nodes[index].wraps && y in nodes[index].wraps;
  }

  /** A built error is itself, its sentinel, the sentinel's base, and everything the wrapped error is. */
  lemma BuiltIs(nodes: seq<Node>, s: Sentinel, err: Ref, data: Option<string>, target: Ref)
    requires Ordered(nodes) && Predeclared(nodes) && Older(err, |nodes|) && Place(s) < |nodes|
    ensures var built := Build(nodes, s, err, data);
            && Ordered(built.nodes) && nodes <= built.nodes
            && Older(built.error, |built.nodes|)
            && (Is(built.nodes, built.error, target) <==>
                  target == built.error || target == Logic(Place(s)) || target == Logic(Place(BaseOf(s)))
                  || Is(nodes, err, target))
  {
    hide Is;
    var built := Build(nodes, s, err, data);
    var nodes' := built.nodes;
    assert nodes'[|nodes|].wraps == [Logic(Place(s))] + [err] == [Logic(Place(s)), err];
    assert forall i :: 0 <= i < |nodes| ==> nodes'[i] == nodes[i];
    OlderIsUnchanged(nodes, nodes', err, target);
    SentinelIs(nodes, s, target);
    OlderIsUnchanged(nodes, nodes', Logic(Place(s)), target);
    IsOfTwo(nodes', |nodes|, Logic(Place(s)), err, target);
  }

  /**
   A converted database error is the store error for its code, that error's base, the original error and whatever
   that was, and no other predeclared error; an unrecognised one is returned as it came.
   */
  lemma ConversionIs(nodes: seq<Node>, err: Ref, t: Sentinel)
    requires Ordered(nodes) && Predeclared(nodes) && Older(err, |nodes|)
    ensures var converted := ErrConvertPgxToLogic(nodes, err);
            var s := Recognised(nodes, err);
            && Ordered(converted.nodes) && nodes <= converted.nodes && Older(converted.error, |converted.nodes|)
            && (s.None? ==> converted == Conversion(false, err, nodes))
            && Is(converted.nodes, converted.error, err)
            && (s.Some? ==>
                  (Is(converted.nodes, converted.error, Logic(Place(t))) <==>
                     t == s.value || t == BaseOf(s.value) || Is(nodes, err, Logic(Place(t)))))
  {
    var s := Recognised(nodes, err);
    if s.Some? {
      var data := if Is(nodes, err, NO_ROWS) then None else DataOf(AsPg(nodes, err).value);
      assert Place(s.value) < |nodes|;
      BuiltIs(nodes, s.value, err, data, err);
      BuiltIs(nodes, s.value, err, data, Logic(Place(t)));
      PlacesDiffer(t, s.value);
      PlacesDiffer(t, BaseOf(s.value));
      assert Place(t) < |nodes|;
    }
  }

  lemma PlacesDiffer(s: Sentinel, t: Sentinel)
    ensures Place(s) == Place(t) <==> s == t
  {
  }

  /**
   Whatever shape a database error arrives in, wrapped or bare, conversion neither hides nor invents the concurrency
   conflict, and makes it a "not found" only when it is, or wraps, the missing row.
   */
  lemma ConflictIsRecognised(nodes: seq<Node>, err: Ref)
    requires Ordered(nodes) && Predeclared(nodes) && Older(err, |nodes|)
    ensures var converted := ErrConvertPgxToLogic(nodes, err);
            && Ordered(converted.nodes) && Older(converted.error, |converted.nodes|)
            && (ErrCheckIsTxConcurrentExec(converted.nodes, converted.error)
                <==> ErrCheckIsTxConcurrentExec(nodes, err))
            && Place(NotFound) < |nodes|
            && (Is(converted.nodes, converted.error, Logic(Place(NotFound))) <==>
                  Is(nodes, err, NO_ROWS) || Is(nodes, err, Logic(Place(NotFound))))
  {
    hide Is, AsPg;
    ConversionIs(nodes, err, TxConcurrentExec);
    ConversionIs(nodes, err, NotFound);
    assert Place(NotFound) < |nodes|;
    var s := Recognised(nodes, err);
    if s.Some? {
      var data := if Is(nodes, err, NO_ROWS) then None else DataOf(AsPg(nodes, err).value);
      assert Place(s.value) < |nodes|;
      BuiltAsPg(nodes, s.value, err, data);
    }
  }

  /** Allocating newer errors does not change which PgError is found below an older one. */
  lemma {:induction false} OlderAsPg(nodes: seq<Node>, nodes': seq<Node>, err: Ref)
    requires Ordered(nodes) && Ordered(nodes') && nodes <= nodes' && Older(err, |nodes|)
    ensures AsPg(nodes', err) == AsPg(nodes, err)
    decreases Rank(err), Depth(err) + 1, 0
  {
    match err
    case Foreign(_, _) =>
    case Annotated(_, inner) => OlderAsPg(nodes, nodes', inner);
    case Logic(index) => OlderAsPgFrom(nodes, nodes', index, 0);
  }

  lemma {:induction false} OlderAsPgFrom(nodes: seq<Node>, nodes': seq<Node>, index: nat, k: nat)
    requires Ordered(nodes) && Ordered(nodes') && nodes <= nodes' && index < |nodes| && k <= |nodes[index].wraps|
    ensures nodes'[index] == nodes[index] && AsPgFrom(nodes', index, k) == AsPgFrom(nodes, index, k)
    decreases index + 1, 0, |nodes[index].wraps| - k
  {
    assert nodes'[index] == nodes[index];
    if k < |nodes[index].wraps| {
      assert nodes[index].wraps[k] in nodes[index].wraps;
      OlderAsPg(nodes, nodes', nodes[index].wraps[k]);
      OlderAsPgFrom(nodes, nodes', index, k + 1);
    }
  }

  /** errors.As finds in a built error what it finds in the error it wraps: sentinels hold no PgError. */
  lemma BuiltAsPg(nodes: seq<Node>, s: Sentinel, err: Ref, data: Option<string>)
    requires Ordered(nodes) && Predeclared(nodes) && Older(err, |nodes|) && Place(s) < |nodes|
    ensures var built := Build(nodes, s, err, data);
            && Ordered(built.nodes) && Older(built.error, |built.nodes|)
            && AsPg(built.nodes, built.error) == AsPg(nodes, err)
  {
    BuiltIs(nodes, s, err, data, err);
    var nodes' := Build(nodes, s, err, data).nodes;
    assert nodes'[|nodes|].wraps == [Logic(Place(s)), err];
    SentinelHoldsNoPg(nodes', s, nodes);
    OlderAsPg(nodes, nodes', err);
    assert AsPgFrom(nodes', |nodes|, 2) == None;
    assert AsPgFrom(nodes', |nodes|, 1) == AsPg(nodes, err);
  }

  lemma SentinelHoldsNoPg(nodes: seq<Node>, s: Sentinel, declared: seq<Node>)
    requires Ordered(nodes) && Predeclared(declared) && declared <= nodes
    ensures Place(s) < |nodes| && AsPg(nodes, Logic(Place(s))) == None
  {
    var b := BaseOf(s);
    assert Place(b) < |declared| && declared[Place(b)].wraps == [] by { assert BaseOf(b) == b; }
    assert nodes[Place(b)] == declared[Place(b)] && nodes[Place(s)] == declared[Place(s)];
    assert AsPg(nodes, Logic(Place(b))) == None;
    if b != s {
      assert nodes[Place(s)].wraps == [Logic(Place(b))];
      assert AsPgFrom(nodes, Place(s), 1) == None;
    }
  }

  // ----- the outcome of a conversion, code by code -----

  /** The first PgError below the error says conflict, or the conflict error itself can be reached. */
  ghost predicate SaysConflict(nodes: seq<Node>, err: Ref)
    requires Ordered(nodes) && Older(err, |nodes|)
  {
    || (exists pg :: FirstPg(nodes, err, pg) && (pg.state == S40001 || pg.state == S25P02))
    || Reachable(nodes, err, Logic(Place(TxConcurrentExec)))
  }

  /** The check recognises these two codes and the conflict error, however deep they lie; converting changes nothing. */
  lemma CheckIsSaysConflict(nodes: seq<Node>, err: Ref)
    requires Ordered(nodes) && Predeclared(nodes) && Older(err, |nodes|)
    ensures ErrCheckIsTxConcurrentExec(nodes, err) <==> SaysConflict(nodes, err)
    ensures var converted := ErrConvertPgxToLogic(nodes, err);
            && Ordered(converted.nodes) && Older(converted.error, |converted.nodes|)
            && (ErrCheckIsTxConcurrentExec(converted.nodes, converted.error) <==> SaysConflict(nodes, err))
  {
    hide Is, AsPg, FirstPg, ErrConvertPgxToLogic;
    ConflictIsRecognised(nodes, err);
    IsEqualsReachable(nodes, err, Logic(Place(TxConcurrentExec)));
    forall pg ensures AsPg(nodes, err) == Some(pg) <==> FirstPg(nodes, err, pg) { AsPgIsFirst(nodes, err, pg); }
    var found := AsPg(nodes, err);
    assert found.Some? ==> FirstPg(nodes, err, found.value);
  }

  /** The errors as declared, whatever was allocated after them. */
  ghost predicate Declared(nodes: seq<Node>) {
    DeclareStoreErrors(|STORE_ERRORS|) <= nodes
  }

  lemma DeclaredIsPredeclared(nodes: seq<Node>)
    requires Declared(nodes)
    ensures Predeclared(nodes)
  {
    hide BaseOf, Place, DeclareStoreErrors;
    DeclarationsAreInPlace();
    var declared := DeclareStoreErrors(|STORE_ERRORS|);
    forall s: Sentinel ensures Place(s) < |nodes| && nodes[Place(s)] == declared[Place(s)] {
      assert Place(s) < |declared|;
    }
  }

  /** A declared error of that name: its code, its message and what it wraps. */
  ghost predicate IsDeclaredAs(nodes: seq<Node>, s: Sentinel, code: int, message: string, wraps: seq<Sentinel>) {
    && Place(s) < |nodes|
    && var refs := seq(|wraps|, i requires 0 <= i < |wraps| => Logic(Place(wraps[i])));
       nodes[Place(s)] == Node(true, code, message, None, refs, None)
  }

  lemma DeclaredBases(nodes: seq<Node>)
    requires Declared(nodes)
    ensures IsDeclaredAs(nodes, BadRequest, 400, "bad request", [])
    ensures IsDeclaredAs(nodes, Unauthorized, 401, "unauthorized", [])
    ensures IsDeclaredAs(nodes, Forbidden, 403, "forbidden", [])
    ensures IsDeclaredAs(nodes, NotFound, 404, "not found", [])
    ensures IsDeclaredAs(nodes, NotAcceptable, 406, "not acceptable", [])
    ensures IsDeclaredAs(nodes, Conflict, 409, "conflict", [])
    ensures IsDeclaredAs(nodes, UnprocessableEntity, 422, "unprocessable entity", [])
    ensures IsDeclaredAs(nodes, Internal, 500, "internal error", [])
    ensures IsDeclaredAs(nodes, ServiceUnavailable, 503, "service unavailable", [])
  {
    hide DeclareStoreErrors;
    var declared := DeclareStoreErrors(|STORE_ERRORS|);
    assert forall i :: 0 <= i < |BASES| ==> nodes[i] == declared[i] == declared[..|BASES|][i] == BASES[i];
  }

  lemma DeclaredStoreErrors(nodes: seq<Node>)
    requires Declared(nodes)
    ensures IsDeclaredAs(nodes, TxConcurrentExec, 409, "conflict", [Conflict])
    ensures IsDeclaredAs(nodes, StoreNoRows, 404, "not found", [NotFound])
    ensures IsDeclaredAs(nodes, StoreUniqueViolation, 409, "conflict", [Conflict])
    ensures IsDeclaredAs(nodes, StoreForeignKeyViolation, 400, "bad request", [BadRequest])
    ensures IsDeclaredAs(nodes, StoreCheckViolation, 400, "bad request", [BadRequest])
    ensures IsDeclaredAs(nodes, StoreNotNullViolation, 400, "bad request", [BadRequest])
    ensures IsDeclaredAs(nodes, StoreRestrictViolation, 400, "bad request", [BadRequest])
    ensures IsDeclaredAs(nodes, StoreIntegrityViolation, 400, "bad request", [BadRequest])
  {
    hide DeclareStoreErrors, IsDeclaredAs, Declared;
    StoreErrorIs(nodes, 0, TxConcurrentExec, Conflict);
    StoreErrorIs(nodes, 1, StoreNoRows, NotFound);
    StoreErrorIs(nodes, 2, StoreUniqueViolation, Conflict);
    StoreErrorIs(nodes, 3, StoreForeignKeyViolation, BadRequest);
    StoreErrorIs(nodes, 4, StoreCheckViolation, BadRequest);
    StoreErrorIs(nodes, 5, StoreNotNullViolation, BadRequest);
    StoreErrorIs(nodes, 6, StoreRestrictViolation, BadRequest);
    StoreErrorIs(nodes, 7, StoreIntegrityViolation, BadRequest);
  }

  lemma StoreErrorIs(nodes: seq<Node>, i: nat, s: Sentinel, base: Sentinel)
    requires Declared(nodes) && i < |STORE_ERRORS| && STORE_ERRORS[i] == s && BaseOf(s) == base
    ensures Place(base) < |BASES|
    ensures IsDeclaredAs(nodes, s, BASES[Place(base)].code, BASES[Place(base)].message, [base])
  {
    hide DeclareStoreErrors, BaseOf, Place;
    var declared := DeclareStoreErrors(|STORE_ERRORS|);
    StoreErrorsHaveBases(i);
    var parent := Place(base);
    assert nodes[|BASES| + i] == declared[|BASES| + i] == Derived(BASES[parent], parent).(onlyRead := true);
    BasesHaveNoDetails(parent);
  }

  lemma BasesHaveNoDetails(i: nat)
    requires i < |BASES|
    ensures BASES[i].details == None
  {
  }

  /** A new error made from that declared error, wrapping the original, with these fields. */
  ghost predicate ConvertedTo(nodes: seq<Node>, err: Ref, known: bool, s: Sentinel, code: int, message: string,
                              data: Option<string>)
    requires Ordered(nodes) && Predeclared(nodes) && Older(err, |nodes|)
  {
    var made := Node(false, code, message, None, [Logic(Place(s)), err], data);
    ErrConvertPgxToLogic(nodes, err) == Conversion(known, Logic(|nodes|), nodes + [made])
  }

  lemma BuildIs(nodes: seq<Node>, s: Sentinel, err: Ref, data: Option<string>)
    requires Place(s) < |nodes|
    ensures var parent := nodes[Place(s)];
            var made := Node(false, parent.code, parent.message, parent.details, [Logic(Place(s)), err], data);
            Build(nodes, s, err, data) == Conversion(s != Internal, Logic(|nodes|), nodes + [made])
  {
    assert [Logic(Place(s))] + [err] == [Logic(Place(s)), err];
  }

  /** The missing row, wherever it lies, and whatever else lies there, makes the not-found error of the store. */
  lemma NoRowsConverts(nodes: seq<Node>, err: Ref)
    requires Ordered(nodes) && Declared(nodes) && Older(err, |nodes|) && Reachable(nodes, err, NO_ROWS)
    ensures Predeclared(nodes) && ConvertedTo(nodes, err, true, StoreNoRows, 404, "not found", None)
  {
    hide Is, DeclareStoreErrors;
    DeclaredIsPredeclared(nodes);
    DeclaredStoreErrors(nodes);
    IsEqualsReachable(nodes, err, NO_ROWS);
    BuildIs(nodes, StoreNoRows, err, None);
  }

  /** The table of the conversion: which error, which code and which data for which SQLSTATE. */
  lemma CodesConvert(nodes: seq<Node>, err: Ref, pg: PgError)
    requires Ordered(nodes) && Declared(nodes) && Older(err, |nodes|)
    requires !Reachable(nodes, err, NO_ROWS) && FirstPg(nodes, err, pg)
    ensures Predeclared(nodes)
    ensures match pg.state
            case S40001 => ConvertedTo(nodes, err, true, TxConcurrentExec, 409, "conflict", None)
            case S25P02 => ConvertedTo(nodes, err, true, TxConcurrentExec, 409, "conflict", None)
            case S23505 => ConvertedTo(nodes, err, true, StoreUniqueViolation, 409, "conflict", Some(pg.column))
            case S23503 => ConvertedTo(nodes, err, true, StoreForeignKeyViolation, 400, "bad request", Some(pg.column))
            case S23502 => ConvertedTo(nodes, err, true, StoreNotNullViolation, 400, "bad request", Some(pg.column))
            case S23514 => ConvertedTo(nodes, err, true, StoreCheckViolation, 400, "bad request", Some(pg.constraint))
            case S23001 => ConvertedTo(nodes, err, true, StoreRestrictViolation, 400, "bad request",
                                       Some(pg.constraint))
            case S23000 => ConvertedTo(nodes, err, true, StoreIntegrityViolation, 400, "bad request",
                                       Some(pg.constraint))
            case OtherState(_) => ConvertedTo(nodes, err, false, Internal, 500, "internal error", None)
  {
    hide Is, AsPg, FirstPg, DeclareStoreErrors, Build;
    DeclaredIsPredeclared(nodes);
    DeclaredStoreErrors(nodes);
    DeclaredBases(nodes);
    IsEqualsReachable(nodes, err, NO_ROWS);
    AsPgIsFirst(nodes, err, pg);
    BuildIs(nodes, SentinelFor(pg.state), err, DataOf(pg));
  }

  /** Anything else comes back as it is, and nothing is allocated. */
  lemma OthersComeBack(nodes: seq<Node>, err: Ref)
    requires Ordered(nodes) && Declared(nodes) && Older(err, |nodes|)
    requires !Reachable(nodes, err, NO_ROWS) && !HoldsPg(nodes, err)
    ensures Predeclared(nodes) && ErrConvertPgxToLogic(nodes, err) == Conversion(false, err, nodes)
  {
    hide Is, AsPg, DeclareStoreErrors;
    DeclaredIsPredeclared(nodes);
    IsEqualsReachable(nodes, err, NO_ROWS);
    AsPgIff(nodes, err);
  }

  /**
   The failures the requests report are these conversions: an error of the server is the predeclared error that the
   conversion is built from, and a lost connection, which is no error of the service, becomes the internal error.
   */
  lemma FailuresAreConversions(nodes: seq<Node>, id: nat, pg: PgError)
    requires Ordered(nodes) && Declared(nodes) && id != 0
    ensures Predeclared(nodes) && FailureFor(ConnectionLost) == From(Internal)
    ensures var converted := ErrConvertPgxToLogic(nodes, Foreign(id, Some(pg)));
            var failure := FailureFor(Server(pg.state));
            && failure.From?
            && |converted.nodes| == |nodes| + 1 && converted.error == Logic(|nodes|)
            && converted.nodes[|nodes|].wraps == [Logic(Place(failure.sentinel)), Foreign(id, Some(pg))]
  {
    hide DeclareStoreErrors;
    DeclaredIsPredeclared(nodes);
    BuildIs(nodes, SentinelFor(pg.state), Foreign(id, Some(pg)), DataOf(pg));
  }
}
