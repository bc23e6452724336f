// The editor's input-delegate registry: key bits, the per-type-list index
// allocator, and DelegateManager's map from index to delegate.
module DelegateManagement {
  import opened Wrappers
  import opened Vk
  import opened Delegates

  // ---------------------------------------------------------------------------
  // Key bits

  datatype KeyBit =
    | KeyNull | KeyEscape | KeyW | KeyA | KeyS | KeyD | KeyLeftCtrl | KeySpace
    | KeyLeftShift | KeyLeft | KeyRight | KeyUp | KeyDown | KeyR

  /** Declaration order: eNull is 0, eR is 13. */
  function KeyOrdinal(k: KeyBit): nat
  {
    match k
    case KeyNull => 0
    case KeyEscape => 1
    case KeyW => 2
    case KeyA => 3
    case KeyS => 4
    case KeyD => 5
    case KeyLeftCtrl => 6
    case KeySpace => 7
    case KeyLeftShift => 8
    case KeyLeft => 9
    case KeyRight => 10
    case KeyUp => 11
    case KeyDown => 12
    case KeyR => 13
  }

  /** The enumerators' values: eNull is 0, eEscape is 1, and each later key
      is the previous one shifted left by one. */
  function KeyBitValue(k: KeyBit): bv64
    decreases KeyOrdinal(k)
  {
    match k
    case KeyNull => 0
    case KeyEscape => 1
    case KeyW => KeyBitValue(KeyEscape) << 1
    case KeyA => KeyBitValue(KeyW) << 1
    case KeyS => KeyBitValue(KeyA) << 1
    case KeyD => KeyBitValue(KeyS) << 1
    case KeyLeftCtrl => KeyBitValue(KeyD) << 1
    case KeySpace => KeyBitValue(KeyLeftCtrl) << 1
    case KeyLeftShift => KeyBitValue(KeySpace) << 1
    case KeyLeft => KeyBitValue(KeyLeftShift) << 1
    case KeyRight => KeyBitValue(KeyLeft) << 1
    case KeyUp => KeyBitValue(KeyRight) << 1
    case KeyDown => KeyBitValue(KeyUp) << 1
    case KeyR => KeyBitValue(KeyDown) << 1
  }

  /** The values the shift chain produces, from eEscape up. */
  lemma KeyBitTableLow()
    ensures KeyBitValue(KeyNull) == 0 && KeyBitValue(KeyEscape) == 0x1 && KeyBitValue(KeyW) == 0x2
    ensures KeyBitValue(KeyA) == 0x4 && KeyBitValue(KeyS) == 0x8
  {
    assert KeyBitValue(KeyW) == 0x2;
    assert KeyBitValue(KeyA) == 0x4;
  }

  lemma KeyBitTableMiddle()
    ensures KeyBitValue(KeyD) == 0x10 && KeyBitValue(KeyLeftCtrl) == 0x20
    ensures KeyBitValue(KeySpace) == 0x40 && KeyBitValue(KeyLeftShift) == 0x80
  {
    KeyBitTableLow();
    assert KeyBitValue(KeyD) == 0x10;
    assert KeyBitValue(KeyLeftCtrl) == 0x20;
    assert KeyBitValue(KeySpace) == 0x40;
  }

  lemma KeyBitTable()
    ensures KeyBitValue(KeyNull) == 0 && KeyBitValue(KeyEscape) == 0x1 && KeyBitValue(KeyW) == 0x2
    ensures KeyBitValue(KeyA) == 0x4 && KeyBitValue(KeyS) == 0x8 && KeyBitValue(KeyD) == 0x10
    ensures KeyBitValue(KeyLeftCtrl) == 0x20 && KeyBitValue(KeySpace) == 0x40 && KeyBitValue(KeyLeftShift) == 0x80
    ensures KeyBitValue(KeyLeft) == 0x100 && KeyBitValue(KeyRight) == 0x200 && KeyBitValue(KeyUp) == 0x400
    ensures KeyBitValue(KeyDown) == 0x800 && KeyBitValue(KeyR) == 0x1000
  {
    KeyBitTableLow();
    KeyBitTableMiddle();
    assert KeyBitValue(KeyLeft) == 0x100;
    assert KeyBitValue(KeyRight) == 0x200;
    assert KeyBitValue(KeyUp) == 0x400;
    assert KeyBitValue(KeyDown) == 0x800;
  }

  /** Every key but eNull is one bit, the bit below its ordinal; eR is bit 12. */
  lemma KeyBitIsSingleBit(k: KeyBit)
    requires k != KeyNull
    ensures 1 <= KeyOrdinal(k) <= 13
    ensures KeyBitValue(k) == (1 as bv64) << (KeyOrdinal(k) - 1)
  {
    KeyBitTable();
  }

  /** Distinct keys share no bit, so a KeyStateMap can hold any set of them. */
  lemma KeyBitsDisjoint(a: KeyBit, b: KeyBit)
    requires a != b
    ensures KeyBitValue(a) & KeyBitValue(b) == 0
    ensures a != KeyNull && b != KeyNull ==> KeyBitValue(a) != KeyBitValue(b)
  {
    KeyBitTable();
  }

  // ---------------------------------------------------------------------------
  // Index allocation per argument-type list

  function RemoveCv(t: CType): CType
  {
    if t.Const? then t.inner else t
  }

  function RemoveReference(t: CType): CType
  {
    if t.Ref? then t.inner else t
  }

  /** `remove_reference_t<remove_cv_t<T>>`, as written: cv is stripped first,
      so on a reference to const it finds nothing to strip and the const
      survives under the reference. */
  function DecayAsWritten(t: CType): CType
  {
    RemoveReference(RemoveCv(t))
  }

  /** The intended decay: reference first, then cv (std::decay on these types). */
  function Decay(t: CType): CType
  {
    RemoveCv(RemoveReference(t))
  }

  function DecayAll(ts: seq<CType>): (r: seq<CType>)
    ensures |r| == |ts|
  {
    seq(|ts|, i requires 0 <= i < |ts| => Decay(ts[i]))
  }

  function DecayAllAsWritten(ts: seq<CType>): (r: seq<CType>)
    ensures |r| == |ts|
  {
    seq(|ts|, i requires 0 <= i < |ts| => DecayAsWritten(ts[i]))
  }

  predicate IsPlain(t: CType)
  {
    t == UInt32 || t == Bool || t == UInt64
  }

  /** As written, a const lvalue argument (deduced as `const T&`) keys a
      different index than the plain `T` the delegate was added under. */
  lemma ConstLvalueKeysAnotherIndex()
    ensures DecayAllAsWritten([Ref(Const(UInt32)), Ref(Const(UInt32))]) != DecayAllAsWritten([UInt32, UInt32])
  {
    assert DecayAllAsWritten([Ref(Const(UInt32)), Ref(Const(UInt32))])[0] == Const(UInt32);
  }

  /** With the intended decay, any qualified form of a plain type keys the
      same index as the plain type. */
  lemma DecayStripsQualifiers(t: CType)
    requires IsPlain(t)
    ensures Decay(t) == t && Decay(Const(t)) == t && Decay(Ref(t)) == t && Decay(Ref(Const(t))) == t
    ensures DecayAll([Ref(Const(t))]) == DecayAll([t])
  {
    assert DecayAll([Ref(Const(t))])[0] == t;
  }

  /** A list of plain types decays, as written, to itself: addDelegate's
      lists and bindFunc's explicit ones key the delegate they name. */
  lemma PlainListsKeyThemselves(ts: seq<CType>)
    requires forall i :: 0 <= i < |ts| ==> IsPlain(ts[i])
    ensures DecayAllAsWritten(ts) == ts
  {
  }

  /** DelegateIndexGetter: a process-wide uint32 counter, and for each type
      list, decayed as written, the index its function-local static took on
      first request. */
  class IndexGetter {
    var currentIndex: nat
    var indices: map<seq<CType>, nat>

    /** Indices handed out so far are distinct and below the counter, which
        has not wrapped. */
    predicate Valid()
      reads this
    {
      currentIndex < U32_MODULUS
      && (forall l :: l in indices ==> indices[l] < currentIndex)
      && (forall l, m :: l in indices && m in indices && l != m ==> indices[l] != indices[m])
    }

    constructor ()
      ensures currentIndex == 0 && indices == map[] && Valid()
    {
      currentIndex := 0;
      indices := map[];
    }

    /** get<Args...>(): the first request for a list, decayed as written,
        takes the counter's value; every later request for a list with the
        same decay returns that same index. */
    method Get(args: seq<CType>) returns (idx: nat)
      modifies this
      ensures DecayAllAsWritten(args) in old(indices) ==> idx == old(indices)[DecayAllAsWritten(args)] && unchanged(this)
      ensures DecayAllAsWritten(args) !in old(indices) ==>
        idx == old(currentIndex) && indices == old(indices)[DecayAllAsWritten(args) := idx]
        && currentIndex == (old(currentIndex) + 1) % U32_MODULUS
      ensures DecayAllAsWritten(args) in indices && indices[DecayAllAsWritten(args)] == idx
      ensures old(Valid()) && old(currentIndex) + 1 < U32_MODULUS ==> Valid()
    {
      var key := DecayAllAsWritten(args);
      if key in indices {
        return indices[key];
      }
      idx := currentIndex;
      indices := indices[key := idx];
      currentIndex := (currentIndex + 1) % U32_MODULUS;
    }
  }

  /** While the getter is valid, distinct decayed lists have distinct indices. */
  lemma DistinctListsDistinctIndices(indices: map<seq<CType>, nat>, l: seq<CType>, m: seq<CType>)
    requires forall a, b :: a in indices && b in indices && a != b ==> indices[a] != indices[b]
    requires l in indices && m in indices
    ensures indices[l] == indices[m] <==> l == m
  {
  }

  // ---------------------------------------------------------------------------
  // DelegateManager

  datatype InputType = UnknownInput | MouseMove | MouseClick | KeyBoard

  /** The parameter list each input type's delegate takes. */
  function ParamsFor(t: InputType): (r: Option<seq<CType>>)
    ensures r.None? <==> t == UnknownInput
  {
    match t
    case MouseMove => Some([UInt32, UInt32])
    case MouseClick => Some([Bool])
    case KeyBoard => Some([UInt64])   // KeyStateMap is uint64_t
    case UnknownInput => None
  }

  class DelegateManager {
    /** The map from index to owned delegate; null is an empty unique_ptr. */
    var delegates: map<nat, Delegate?>

    constructor ()
      ensures delegates == map[]
    {
      delegates := map[];
    }

    /** addDelegate<Args...>(): the entry for the list's index is replaced by a
        fresh Delegate<void(Args...)>, on the undecayed list, with nothing
        bound. */
    method AddDelegateFor(getter: IndexGetter, args: seq<CType>) returns (idx: nat)
      modifies getter, this`delegates
      ensures DecayAllAsWritten(args) in getter.indices && idx == getter.indices[DecayAllAsWritten(args)]
      ensures idx in delegates && delegates[idx] != null && fresh(delegates[idx])
      ensures delegates[idx].funcs == map[] && delegates[idx].currentKey == 0
      ensures delegates[idx].signature == args
      ensures getter.indices == old(getter.indices)[DecayAllAsWritten(args) := idx]
      ensures DecayAllAsWritten(args) !in old(getter.indices) ==> idx == old(getter.currentIndex)
      ensures DecayAllAsWritten(args) in old(getter.indices) ==> getter.currentIndex == old(getter.currentIndex)
      ensures DecayAllAsWritten(args) !in old(getter.indices) ==>
        getter.currentIndex == (old(getter.currentIndex) + 1) % U32_MODULUS
      ensures old(getter.Valid()) && old(getter.currentIndex) + 1 < U32_MODULUS ==> getter.Valid()
      ensures forall j :: j != idx ==> (j in delegates <==> j in old(delegates))
      ensures forall j :: j != idx && j in delegates ==> delegates[j] == old(delegates)[j]
    {
      idx := getter.Get(args);
      var d := new Delegate(args);
      delegates := delegates[idx := d];
    }

    /** addDelegate(type): one delegate per supported input type; an unknown
        type raises. */
    method AddDelegate(getter: IndexGetter, t: InputType) returns (r: Result<nat>)
      modifies getter, this`delegates
      ensures t == UnknownInput ==> r == Err(Fatal("bad InputType")) && unchanged(this) && unchanged(getter)
      ensures t != UnknownInput ==>
        r.Ok? && ParamsFor(t).value in getter.indices && r.value == getter.indices[ParamsFor(t).value]
      ensures t != UnknownInput ==> r.Ok? && r.value in delegates && delegates[r.value] != null
      ensures t != UnknownInput ==> r.Ok? && fresh(delegates[r.value]) && delegates[r.value].funcs == map[]
      ensures t != UnknownInput ==> r.Ok? && delegates[r.value].signature == ParamsFor(t).value
      ensures t != UnknownInput ==>
        r.Ok? && getter.indices == old(getter.indices)[ParamsFor(t).value := r.value]
      ensures t != UnknownInput && ParamsFor(t).value !in old(getter.indices) ==>
        r.Ok? && r.value == old(getter.currentIndex)
      ensures t != UnknownInput && ParamsFor(t).value in old(getter.indices) ==>
        getter.currentIndex == old(getter.currentIndex)
      ensures t != UnknownInput && ParamsFor(t).value !in old(getter.indices) ==>
        getter.currentIndex == (old(getter.currentIndex) + 1) % U32_MODULUS
      ensures old(getter.Valid()) && old(getter.currentIndex) + 1 < U32_MODULUS ==> getter.Valid()
      ensures t != UnknownInput ==>
        r.Ok? && (forall j :: j != r.value ==> (j in delegates <==> j in old(delegates)))
      ensures t != UnknownInput ==>
        r.Ok? && (forall j :: j != r.value && j in delegates ==> delegates[j] == old(delegates)[j])
    {
      match ParamsFor(t)
      case None =>
        return Err(Fatal("bad InputType"));
      case Some(params) =>
        PlainListsKeyThemselves(params);
        var idx := AddDelegateFor(getter, params);
        r := Ok(idx);
    }

    /** bindFunc<Args...>(index, func): an unknown index raises.  The
        dynamic_cast to Delegate<void(Args...)> yields null for an empty entry
        or a delegate whose parameter list is not exactly Args, and the call
        through it is undefined; otherwise the
        delegate's bindFunction(std::any) runs, which throws on a held type
        other than its function type. */
    method BindFunc(args: seq<CType>, delegateIndex: nat, func: AnyValue) returns (r: Outcome)
      modifies if delegateIndex in delegates && delegates[delegateIndex] != null then {delegates[delegateIndex]} else {}
      ensures delegateIndex !in delegates ==> r == Fail(Fatal("bind func to a delegate with an illegal index"))
      ensures delegateIndex in delegates && (delegates[delegateIndex] == null
                                             || delegates[delegateIndex].signature != args) ==>
        r.Fail? && r.error.Undefined?
      ensures delegateIndex in delegates && delegates[delegateIndex] != null
              && delegates[delegateIndex].signature == args ==>
        var d := delegates[delegateIndex];
        (r.Done? <==> HoldsSignature(func, d.signature))
        && (r.Done? ==> d.funcs == old(d.funcs)[old(d.currentKey) := func.func]
                        && d.currentKey == (old(d.currentKey) + 1) % U32_MODULUS)
        && (r.Fail? ==> r.error == Thrown("bad_any_cast") && unchanged(d))
    {
      if delegateIndex !in delegates {
        return Fail(Fatal("bind func to a delegate with an illegal index"));
      }
      var d := delegates[delegateIndex];
      if d == null || d.signature != args {
        return Fail(Error.Undefined("bindFunction called through a null delegate pointer"));
      }
      var k := d.BindAny(func);
      r := if k.Ok? then Done else Fail(k.error);
    }

    /** boardcast(args...), `args` being the deduced forwarding-reference
        types: `delegates[index]` inserts an empty entry when there is none;
        an empty entry raises.  The static_cast to Delegate<void(Args...)> of
        a delegate whose parameter list is not exactly Args is undefined.
        Otherwise every function bound to the delegate is invoked once,
        `invoked[i]` being the one under key `order[i]`. */
    method Boardcast(getter: IndexGetter, args: seq<CType>) returns (r: Outcome, order: seq<nat>, invoked: seq<FuncId>)
      modifies getter, this`delegates
      ensures DecayAllAsWritten(args) in getter.indices && getter.indices[DecayAllAsWritten(args)] in delegates
      ensures DecayAllAsWritten(args) !in old(getter.indices) ==>
        getter.indices[DecayAllAsWritten(args)] == old(getter.currentIndex)
      ensures getter.indices == old(getter.indices)[DecayAllAsWritten(args) := getter.indices[DecayAllAsWritten(args)]]
      ensures DecayAllAsWritten(args) in old(getter.indices) ==> getter.currentIndex == old(getter.currentIndex)
      ensures DecayAllAsWritten(args) !in old(getter.indices) ==>
        getter.currentIndex == (old(getter.currentIndex) + 1) % U32_MODULUS
      ensures old(getter.Valid()) && old(getter.currentIndex) + 1 < U32_MODULUS ==> getter.Valid()
      ensures getter.indices[DecayAllAsWritten(args)] in old(delegates) ==> delegates == old(delegates)
      ensures getter.indices[DecayAllAsWritten(args)] !in old(delegates) ==>
        delegates == old(delegates)[getter.indices[DecayAllAsWritten(args)] := null]
      ensures delegates[getter.indices[DecayAllAsWritten(args)]] == null ==>
        r == Fail(Fatal("calling for boardcast of a released delegate")) && invoked == []
      ensures delegates[getter.indices[DecayAllAsWritten(args)]] != null
              && delegates[getter.indices[DecayAllAsWritten(args)]].signature != args ==>
        r.Fail? && r.error.Undefined? && invoked == []
      ensures r.Done? <==> delegates[getter.indices[DecayAllAsWritten(args)]] != null
                           && delegates[getter.indices[DecayAllAsWritten(args)]].signature == args
      ensures r.Done? ==>
        var d := delegates[getter.indices[DecayAllAsWritten(args)]];
        |order| == |d.funcs.Keys| && (forall k :: k in d.funcs <==> k in order)
        && (forall i, j :: 0 <= i < j < |order| ==> order[i] != order[j])
        && |invoked| == |order| && forall i :: 0 <= i < |order| ==> invoked[i] == d.funcs[order[i]]
    {
      var idx := getter.Get(args);
      if idx !in delegates {
        delegates := delegates[idx := null];
      }
      var d := delegates[idx];
      if d == null {
        return Fail(Fatal("calling for boardcast of a released delegate")), [], [];
      }
      if d.signature != args {
        return Fail(Error.Undefined("boardcast through a delegate of another parameter list")), [], [];
      }
      order, invoked := d.Broadcast();
      r := Done;
    }

    /** releaseDelegate: erases only the given entry. */
    method ReleaseDelegate(delegateIndex: nat)
      modifies this`delegates
      ensures delegates == old(delegates) - {delegateIndex}
    {
      delegates := delegates - {delegateIndex};
    }
  }

  /** A mouse-move delegate registered, then a boardcast whose arguments are
      const lvalues: as written, their list keys a fresh index, whose entry
      operator[] inserts empty, so the boardcast raises although a delegate
      for two uint32_t parameters exists. */
  method ConstLvalueBoardcastRaises() returns (r: Outcome, invoked: seq<FuncId>)
    ensures r == Fail(Fatal("calling for boardcast of a released delegate")) && invoked == []
  {
    var getter := new IndexGetter();
    var manager := new DelegateManager();
    var added := manager.AddDelegate(getter, MouseMove);
    ConstLvalueKeysAnotherIndex();
    var order;
    r, order, invoked := manager.Boardcast(getter, [Ref(Const(UInt32)), Ref(Const(UInt32))]);
  }

  /** The mouse-move and mouse-click delegates registered in turn take the
      first two indices, and a boardcast on the mouse-click parameters leaves
      the mouse-move delegate in place. */
  method DelegatesSurviveLaterCalls() returns (move: Result<nat>, click: Result<nat>, kept: bool)
    ensures move == Ok(0) && click == Ok(1) && kept
  {
    var getter := new IndexGetter();
    var manager := new DelegateManager();
    move := manager.AddDelegate(getter, MouseMove);
    assert getter.currentIndex == 1 && getter.indices.Keys == {[UInt32, UInt32]};
    click := manager.AddDelegate(getter, MouseClick);
    assert 0 in manager.delegates && manager.delegates[0] != null;
    PlainListsKeyThemselves([Bool]);
    var r, order, invoked := manager.Boardcast(getter, [Bool]);
    kept := 0 in manager.delegates && manager.delegates[0] != null;
  }
}
