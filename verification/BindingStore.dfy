/** Stored service bindings over every serial run of operations. */
module BindingStore {
  import opened Wrappers
  import opened ServiceBindings
  import opened TemplateInstalls

  datatype Operation =
    | Save(id: string, input: Input, source: Target, target: Target)
    | Delete(id: string)
    | Install(components: seq<Component>, ids: seq<string>)

  /** ConflictingServiceBinding: another binding of the source target with one of the keys in any column. */
  predicate Conflict(store: map<string, Binding>, id: string, sourceTarget: string, keys: seq<string>) {
    exists other :: other in store && other != id && store[other].sourceTarget == sourceTarget
                    && (store[other].urlVar in keys || store[other].hostVar in keys || store[other].portVar in keys)
  }

  /**
   An install writes its targets and bindings under new identifiers, in one transaction that fails when one
   of them is in use.
   */
  predicate Fresh(store: map<string, Binding>, components: seq<Component>, ids: seq<string>, bs: seq<Binding>) {
    && |ids| == |bs|
    && (forall i, j :: 0 <= i < j < |ids| ==> ids[i] != ids[j])
    && (forall i :: 0 <= i < |ids| ==> ids[i] !in store)
    && (forall id, c :: id in store && c in components ==> store[id].sourceTarget != c.target.id)
    && (forall i, j :: 0 <= i < j < |components| ==> components[i].target.id != components[j].target.id)
  }

  function StoreAll(store: map<string, Binding>, ids: seq<string>, bs: seq<Binding>): map<string, Binding>
    requires |ids| == |bs|
  {
    if bs == [] then store else
    var n := |bs| - 1;
    StoreAll(store, ids[..n], bs[..n])[ids[n] := bs[n]]
  }

  /** Creating under a new identifier or updating under a known one; an error changes nothing. */
  function Apply(store: map<string, Binding>, op: Operation, env: Environment): map<string, Binding> {
    match op
    case Delete(id) => store - {id}
    case Install(components, ids) =>
      var planned := PlanBindings(components, components, env);
      if ValidTemplate(components) && planned.Ok? && Fresh(store, components, ids, planned.value)
      then StoreAll(store, ids, planned.value)
      else store
    case Save(id, input, source, target) =>
      match Prepare(input, source, target, env)
      case Err(_) => store
      case Ok(b) => if Conflict(store, id, b.sourceTarget, Keys(b)) then store else store[id := b]
  }

  function ApplyAll(ops: seq<Operation>, env: Environment): map<string, Binding> {
    if ops == [] then map[] else Apply(ApplyAll(ops[..|ops| - 1], env), ops[|ops| - 1], env)
  }

  /** Every environment variable of a source target is set by at most one binding, and once. */
  ghost predicate Distinct(store: map<string, Binding>, env: Environment) {
    && (forall id :: id in store ==> Sound(store[id], env))
    && (forall id, other ::
          id in store && other in store && id != other && store[id].sourceTarget == store[other].sourceTarget ==>
          !Shares(store[id], store[other]))
  }

  /** What an install stores: the old bindings, and its own under its identifiers. */
  lemma {:induction false} StoredAre(store: map<string, Binding>, ids: seq<string>, bs: seq<Binding>)
    requires |ids| == |bs| && forall i, j :: 0 <= i < j < |ids| ==> ids[i] != ids[j]
    requires forall i :: 0 <= i < |ids| ==> ids[i] !in store
    ensures forall id :: id in StoreAll(store, ids, bs) ==>
              (id in store && StoreAll(store, ids, bs)[id] == store[id])
              || exists i :: 0 <= i < |ids| && ids[i] == id && StoreAll(store, ids, bs)[id] == bs[i]
    decreases |bs|
  {
    if bs != [] {
      var n := |bs| - 1;
      StoredAre(store, ids[..n], bs[..n]);
      assert ids[n] !in ids[..n];
    }
  }

  /** A binding of the store, or one of the install. */
  ghost predicate Origin(store: map<string, Binding>, ids: seq<string>, bs: seq<Binding>, id: string, b: Binding)
    requires |ids| == |bs|
  {
    (id in store && b == store[id]) || exists i :: 0 <= i < |ids| && ids[i] == id && b == bs[i]
  }

  /** What two bindings after an install share: nothing, if their source target is the same. */
  lemma StayApart(store: map<string, Binding>, components: seq<Component>, ids: seq<string>, bs: seq<Binding>,
                  env: Environment, id: string, a: Binding, other: string, b: Binding)
    requires Distinct(store, env) && Fresh(store, components, ids, bs) && Apart(bs)
    requires forall x :: x in bs ==> exists c :: c in components && x.sourceTarget == c.target.id
    requires Origin(store, ids, bs, id, a) && Origin(store, ids, bs, other, b)
    requires id != other && a.sourceTarget == b.sourceTarget
    ensures !Shares(a, b)
  {
    hide Sound, Shares;
    SharesBothWays(a, b);
    var firstOld, secondOld := id in store && a == store[id], other in store && b == store[other];
    if firstOld && !secondOld {
      NotStored(store, components, bs, id, b);
    } else if secondOld && !firstOld {
      NotStored(store, components, bs, other, a);
    } else if !firstOld {
      var i :| 0 <= i < |ids| && ids[i] == id && a == bs[i];
      var j :| 0 <= j < |ids| && ids[j] == other && b == bs[j];
    }
  }

  lemma NotStored(store: map<string, Binding>, components: seq<Component>, bs: seq<Binding>, id: string, b: Binding)
    requires forall stored, c :: stored in store && c in components ==> store[stored].sourceTarget != c.target.id
    requires forall x :: x in bs ==> exists c :: c in components && x.sourceTarget == c.target.id
    requires id in store && b in bs
    ensures store[id].sourceTarget != b.sourceTarget
  {
    var c :| c in components && b.sourceTarget == c.target.id;
  }

  lemma InstallKeeps(store: map<string, Binding>, components: seq<Component>, ids: seq<string>, env: Environment)
    requires Distinct(store, env) && ValidTemplate(components) && PlanBindings(components, components, env).Ok?
    requires Fresh(store, components, ids, PlanBindings(components, components, env).value)
    ensures Distinct(StoreAll(store, ids, PlanBindings(components, components, env).value), env)
  {
    hide PlanBindings, ValidTemplate, Sound, Shares, StoreAll, Apart;
    var bs := PlanBindings(components, components, env).value;
    PlannedApart(components, components, env);
    StoredAre(store, ids, bs);
    var after := StoreAll(store, ids, bs);
    forall id | id in after
      ensures Sound(after[id], env) && Origin(store, ids, bs, id, after[id])
    {
      if !(id in store && after[id] == store[id]) {
        var i :| 0 <= i < |ids| && ids[i] == id && after[id] == bs[i];
        assert bs[i] in bs;
      }
    }
    hide Distinct, Fresh, Origin;
    forall id, other | id in after && other in after && id != other
                       && after[id].sourceTarget == after[other].sourceTarget
      ensures !Shares(after[id], after[other])
    {
      StayApart(store, components, ids, bs, env, id, after[id], other, after[other]);
    }
    DistinctFrom(after, env);
  }

  lemma DistinctFrom(store: map<string, Binding>, env: Environment)
    requires forall id :: id in store ==> Sound(store[id], env)
    requires forall id, other :: id in store && other in store && id != other
                                 && store[id].sourceTarget == store[other].sourceTarget ==>
               !Shares(store[id], store[other])
    ensures Distinct(store, env)
  {
    hide Sound, Shares;
  }

  lemma SharesBothWays(a: Binding, b: Binding)
    ensures Shares(a, b) <==> Shares(b, a)
  {
    hide Keys;
  }

  lemma ApplyKeeps(store: map<string, Binding>, op: Operation, env: Environment)
    requires Distinct(store, env)
    ensures Distinct(Apply(store, op, env), env)
  {
    hide Prepare, Sound, Keys, StoreAll, ValidTemplate, PlanBindings, Fresh;
    if op.Install? {
      if ValidTemplate(op.components) && PlanBindings(op.components, op.components, env).Ok?
         && Fresh(store, op.components, op.ids, PlanBindings(op.components, op.components, env).value) {
        InstallKeeps(store, op.components, op.ids, env);
      }
    } else if op.Save? && Prepare(op.input, op.source, op.target, env).Ok? {
      var b := Prepare(op.input, op.source, op.target, env).value;
      AcceptedIsSound(op.input, op.source, op.target, env);
      forall other | other in store
        ensures (store[other].urlVar in Keys(b) || store[other].hostVar in Keys(b) || store[other].portVar in Keys(b))
           <==> Shares(store[other], b)
      {
        ConflictIsSharing(store[other], b, env);
      }
    }
  }

  /** Over any run of creations, updates, deletions and template installs, refused ones included. */
  lemma {:induction false} VariablesStayDistinct(ops: seq<Operation>, env: Environment)
    ensures Distinct(ApplyAll(ops, env), env)
  {
    if ops != [] {
      VariablesStayDistinct(ops[..|ops| - 1], env);
      ApplyKeeps(ApplyAll(ops[..|ops| - 1], env), ops[|ops| - 1], env);
    }
  }
}
