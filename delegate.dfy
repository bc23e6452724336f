// Delegate<R(Args...)> and its enum-keyed variant Delegate<R(E)>: observer
// lists keyed by the handle bindFunction returns.  A bound std::function is
// an opaque id; invoking it is recorded, not run.
module Delegates {
  import opened Wrappers
  import opened Vk

  /** A bound std::function, by identity. */
  type FuncId = nat

  /** The C++ parameter types the engine's delegates use, with the const and
      reference qualifiers template deduction can attach to them. */
  datatype CType = UInt32 | Bool | UInt64 | Const(inner: CType) | Ref(inner: CType)

  /** A std::any as bindFunction(std::any) sees it: a std::function with the
      given parameter list, or anything else. */
  datatype AnyValue = HoldsFunction(params: seq<CType>, func: FuncId) | HoldsOther

  /** std::any_cast<std::function<void(params...)>> succeeds. */
  predicate HoldsSignature(a: AnyValue, params: seq<CType>)
  {
    a.HoldsFunction? && a.params == params
  }

  /** The range-for over an unordered_map: every stored key is visited once,
      in an order the container chooses; `invoked[i]` is the function under
      `order[i]`. */
  method InvokeAll(funcs: map<nat, FuncId>) returns (order: seq<nat>, invoked: seq<FuncId>)
    ensures |order| == |funcs.Keys|
    ensures forall i, j :: 0 <= i < j < |order| ==> order[i] != order[j]
    ensures forall k :: k in funcs <==> k in order
    ensures |invoked| == |order| && forall i :: 0 <= i < |order| ==> invoked[i] == funcs[order[i]]
  {
    var remaining := funcs.Keys;
    order, invoked := [], [];
    while remaining != {}
      invariant remaining <= funcs.Keys
      invariant forall k :: k in funcs <==> k in order || k in remaining
      invariant forall k :: k in order ==> k !in remaining
      invariant |order| + |remaining| == |funcs.Keys|
      invariant forall i, j :: 0 <= i < j < |order| ==> order[i] != order[j]
      invariant |invoked| == |order| && forall i :: 0 <= i < |order| ==> order[i] in funcs && invoked[i] == funcs[order[i]]
      decreases |remaining|
    {
      var k :| k in remaining;
      order := order + [k];
      invoked := invoked + [funcs[k]];
      remaining := remaining - {k};
    }
  }

  /** Delegate<R(Args...)>. */
  class Delegate {
    /** The parameter list of the FuncType this delegate stores. */
    const signature: seq<CType>
    var funcs: map<nat, FuncId>
    var currentKey: nat

    /** Every stored key was handed out before `currentKey`, which has not
        wrapped. */
    predicate Valid()
      reads this
    {
      currentKey < U32_MODULUS && forall k :: k in funcs ==> k < currentKey
    }

    constructor (signature: seq<CType>)
      ensures this.signature == signature && funcs == map[] && currentKey == 0
      ensures Valid()
    {
      this.signature := signature;
      funcs := map[];
      currentKey := 0;
    }

    /** removeBindFunc: erases only the given key. */
    method RemoveBindFunc(key: nat)
      modifies this`funcs
      ensures funcs == old(funcs) - {key}
      ensures old(Valid()) ==> Valid()
    {
      funcs := funcs - {key};
    }

    /** bindFunction: store under the current key, return it, advance the
        uint32 counter.  Until the counter wraps, the key is one never
        handed out before, so no bound function is displaced. */
    method BindFunction(f: FuncId) returns (key: nat)
      modifies this`funcs, this`currentKey
      ensures key == old(currentKey) && funcs == old(funcs)[key := f]
      ensures currentKey == (old(currentKey) + 1) % U32_MODULUS
      ensures old(Valid()) ==> key !in old(funcs)
      ensures old(Valid()) && old(currentKey) + 1 < U32_MODULUS ==> Valid()
    {
      funcs := funcs[currentKey := f];
      key := currentKey;
      currentKey := (currentKey + 1) % U32_MODULUS;
    }

    /** bindFunction(std::any): std::any_cast throws unless the value holds
        exactly this delegate's function type. */
    method BindAny(a: AnyValue) returns (r: Result<nat>)
      modifies this`funcs, this`currentKey
      ensures !HoldsSignature(a, signature) ==> r == Err(Thrown("bad_any_cast")) && unchanged(this)
      ensures HoldsSignature(a, signature) ==>
        r == Ok(old(currentKey)) && funcs == old(funcs)[old(currentKey) := a.func]
        && currentKey == (old(currentKey) + 1) % U32_MODULUS
    {
      if !HoldsSignature(a, signature) {
        return Err(Thrown("bad_any_cast"));
      }
      var key := BindFunction(a.func);
      r := Ok(key);
    }

    /** broadcast: every stored function is invoked once with the arguments,
        in the map's order. */
    method Broadcast() returns (order: seq<nat>, invoked: seq<FuncId>)
      ensures |order| == |funcs.Keys|
      ensures forall i, j :: 0 <= i < j < |order| ==> order[i] != order[j]
      ensures forall k :: k in funcs <==> k in order
      ensures |invoked| == |order| && forall i :: 0 <= i < |order| ==> invoked[i] == funcs[order[i]]
    {
      order, invoked := InvokeAll(funcs);
    }

    /** releaseDelegate: no function stays bound and keys start again at 0. */
    method ReleaseDelegate()
      modifies this`funcs, this`currentKey
      ensures funcs == map[] && currentKey == 0 && Valid()
    {
      funcs := map[];
      currentKey := 0;
    }
  }

  /** Binding a fresh key and then removing it gives back the map as it was. */
  lemma BindThenRemove(funcs: map<nat, FuncId>, key: nat, f: FuncId)
    requires key !in funcs
    ensures funcs[key := f] - {key} == funcs
    ensures (funcs[key := f] - {key}).Keys == funcs.Keys
  {
  }

  /** The functions bound to one enumerator (operator[] on the map yields an
      empty vector for a missing key). */
  function Listeners<E>(enumFuncs: map<E, seq<FuncId>>, e: E): seq<FuncId>
  {
    if e in enumFuncs then enumFuncs[e] else []
  }

  /** `for (auto e : enums) enumFuncs[e].push_back(f)`. */
  function AddToEach<E>(enumFuncs: map<E, seq<FuncId>>, enums: seq<E>, f: FuncId): map<E, seq<FuncId>>
    decreases |enums|
  {
    if enums == [] then enumFuncs
    else AddToEach(enumFuncs[enums[0] := Listeners(enumFuncs, enums[0]) + [f]], enums[1..], f)
  }

  /** Number of times `e` is listed. */
  function Count<E(==)>(enums: seq<E>, e: E): nat
  {
    if enums == [] then 0 else (if enums[0] == e then 1 else 0) + Count(enums[1..], e)
  }

  function Copies(f: FuncId, n: nat): (r: seq<FuncId>)
    ensures |r| == n
  {
    if n == 0 then [] else [f] + Copies(f, n - 1)
  }

  /** After binding, each enumerator's list is its old list followed by the
      function once per time the enumerator was listed; unlisted enumerators
      keep their lists. */
  lemma {:induction false} AddToEachSpec<E>(enumFuncs: map<E, seq<FuncId>>, enums: seq<E>, f: FuncId, e: E)
    ensures Listeners(AddToEach(enumFuncs, enums, f), e) == Listeners(enumFuncs, e) + Copies(f, Count(enums, e))
    decreases |enums|
  {
    if enums != [] {
      var next := enumFuncs[enums[0] := Listeners(enumFuncs, enums[0]) + [f]];
      AddToEachSpec(next, enums[1..], f, e);
      if enums[0] == e {
        assert Copies(f, Count(enums, e)) == [f] + Copies(f, Count(enums[1..], e));
      }
    }
  }

  /** AddToEach extends the enumerator lists one element at a time. */
  lemma AddToEachSnoc<E>(enumFuncs: map<E, seq<FuncId>>, enums: seq<E>, f: FuncId, i: nat)
    requires i < |enums|
    ensures AddToEach(enumFuncs, enums[..i + 1], f)
         == var m := AddToEach(enumFuncs, enums[..i], f); m[enums[i] := Listeners(m, enums[i]) + [f]]
    decreases i
  {
    if i > 0 {
      var rest := enumFuncs[enums[0] := Listeners(enumFuncs, enums[0]) + [f]];
      assert enums[..i + 1][1..] == enums[1..][..i];
      assert enums[..i][1..] == enums[1..][..i - 1];
      AddToEachSnoc(rest, enums[1..], f, i - 1);
    }
  }

  /** Delegate<R(E)>: functions bound with no enumerator are generic; the
      others are kept per enumerator, in binding order. */
  class EnumDelegate<E(==)> {
    const signature: seq<CType>
    var funcs: map<nat, FuncId>
    var enumFuncs: map<E, seq<FuncId>>
    var currentKey: nat

    constructor (signature: seq<CType>)
      ensures this.signature == signature && funcs == map[] && enumFuncs == map[] && currentKey == 0
    {
      this.signature := signature;
      funcs := map[];
      enumFuncs := map[];
      currentKey := 0;
    }

    /** removeBindFunc erases a generic function only. */
    method RemoveBindFunc(key: nat)
      modifies this`funcs
      ensures funcs == old(funcs) - {key}
    {
      funcs := funcs - {key};
    }

    /** bindFunction(f, enums): an empty list binds a generic function under
        the current key; otherwise the function is appended to the list of
        every listed enumerator and the key is not stored.  The key is
        consumed either way. */
    method BindFunction(f: FuncId, enums: seq<E>) returns (key: nat)
      modifies this`funcs, this`enumFuncs, this`currentKey
      ensures key == old(currentKey) && currentKey == (old(currentKey) + 1) % U32_MODULUS
      ensures enums == [] ==> funcs == old(funcs)[key := f] && enumFuncs == old(enumFuncs)
      ensures enums != [] ==> funcs == old(funcs) && enumFuncs == AddToEach(old(enumFuncs), enums, f)
    {
      if enums == [] {
        funcs := funcs[currentKey := f];
      } else {
        var i := 0;
        while i < |enums|
          invariant 0 <= i <= |enums|
          invariant enumFuncs == AddToEach(old(enumFuncs), enums[..i], f)
          invariant funcs == old(funcs) && currentKey == old(currentKey)
        {
          AddToEachSnoc(old(enumFuncs), enums, f, i);
          enumFuncs := enumFuncs[enums[i] := Listeners(enumFuncs, enums[i]) + [f]];
          i := i + 1;
        }
        assert enums[..i] == enums;
      }
      key := currentKey;
      currentKey := (currentKey + 1) % U32_MODULUS;
    }

    /** bindFunction(std::any, enums): the cast throws on any other held type. */
    method BindAny(a: AnyValue, enums: seq<E>) returns (r: Result<nat>)
      modifies this`funcs, this`enumFuncs, this`currentKey
      ensures !HoldsSignature(a, signature) ==> r == Err(Thrown("bad_any_cast")) && unchanged(this)
      ensures HoldsSignature(a, signature) ==>
        r == Ok(old(currentKey)) && currentKey == (old(currentKey) + 1) % U32_MODULUS
      ensures HoldsSignature(a, signature) && enums == [] ==>
        funcs == old(funcs)[old(currentKey) := a.func] && enumFuncs == old(enumFuncs)
      ensures HoldsSignature(a, signature) && enums != [] ==>
        funcs == old(funcs) && enumFuncs == AddToEach(old(enumFuncs), enums, a.func)
    {
      if !HoldsSignature(a, signature) {
        return Err(Thrown("bad_any_cast"));
      }
      var key := BindFunction(a.func, enums);
      r := Ok(key);
    }

    /** broadcast(e): every generic function once, in the map's order, then
        the functions bound to `e` in binding order.  `enumFuncs[arg]` inserts
        an empty list for an enumerator nobody bound to. */
    method Broadcast(e: E) returns (order: seq<nat>, invoked: seq<FuncId>)
      modifies this`enumFuncs
      ensures enumFuncs == old(enumFuncs)[e := Listeners(old(enumFuncs), e)]
      ensures |order| == |funcs.Keys|
      ensures forall i, j :: 0 <= i < j < |order| ==> order[i] != order[j]
      ensures forall k :: k in funcs <==> k in order
      ensures |invoked| == |order| + |Listeners(old(enumFuncs), e)|
      ensures forall i :: 0 <= i < |order| ==> invoked[i] == funcs[order[i]]
      ensures invoked[|order|..] == Listeners(old(enumFuncs), e)
    {
      var generic;
      order, generic := InvokeAll(funcs);
      if e !in enumFuncs {
        enumFuncs := enumFuncs[e := []];
      }
      invoked := generic + enumFuncs[e];
    }

    /** releaseDelegate clears the generic functions and the key counter; the
        per-enumerator lists stay. */
    method ReleaseDelegate()
      modifies this`funcs, this`currentKey
      ensures funcs == map[] && currentKey == 0
    {
      funcs := map[];
      currentKey := 0;
    }
  }
}
