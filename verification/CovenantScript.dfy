/**
 The k-of-n covenant script and a small evaluator for its opcodes (BIP 342, "Rules for signature
 opcodes"). The script builder is library code; what is taken from it is that the keys stand in
 ascending x-only order.
 */
module CovenantScript {
  import opened Bytes
  import opened Types
  import opened Wrappers
  import opened SetFacts
  import opened WitnessGen

  datatype Opcode =
    | PushKey(x: XOnly)
    | PushNum(n: nat)
    | CheckSig
    | CheckSigAdd
    | NumEqual

  /** A stack item; the empty byte vector is the number 0. */
  datatype Item = Num(n: int) | Sig(sig: Signature) | Key(x: XOnly)

  type Stack = seq<Item>

  type Verifier = (XOnly, Signature) -> bool

  /** The vote of one signature slot: an empty one counts 0, a good one 1, a bad one ends the script. */
  function Vote(verify: Verifier, x: XOnly, slot: Item): Option<int> {
    match slot
    case Num(n) => if n == 0 then Some(0) else None
    case Sig(sig) => if verify(x, sig) then Some(1) else None
    case Key(_) => None
  }

  function ExecOp(verify: Verifier, op: Opcode, st: Stack): Option<Stack> {
    var n := |st|;
    match op
    case PushKey(x) => Some(st + [Key(x)])
    case PushNum(k) => Some(st + [Num(k)])
    case CheckSig =>
      if n < 2 || !st[n - 1].Key? then None
      else
        var vote := Vote(verify, st[n - 1].x, st[n - 2]);
        if vote.None? then None else Some(st[..n - 2] + [Num(vote.value)])
    case CheckSigAdd =>
      if n < 3 || !st[n - 1].Key? || !st[n - 2].Num? then None
      else
        var vote := Vote(verify, st[n - 1].x, st[n - 3]);
        if vote.None? then None else Some(st[..n - 3] + [Num(st[n - 2].n + vote.value)])
    case NumEqual =>
      if n < 2 || !st[n - 1].Num? || !st[n - 2].Num? then None
      else Some(st[..n - 2] + [Num(if st[n - 1].n == st[n - 2].n then 1 else 0)])
  }

  function Exec(verify: Verifier, ops: seq<Opcode>, st: Stack): Option<Stack> {
    if ops == [] then Some(st)
    else
      var next := ExecOp(verify, ops[0], st);
      if next.None? then None else Exec(verify, ops[1..], next.value)
  }

  /** The script succeeds when it leaves exactly one item and that item is true. */
  predicate Accepts(verify: Verifier, ops: seq<Opcode>, st: Stack) {
    var r := Exec(verify, ops, st);
    r.Some? && |r.value| == 1 && r.value[0] != Num(0)
  }

  function AddOps(keys: seq<PubKey>): seq<Opcode> {
    if keys == [] then [] else [PushKey(keys[0].x), CheckSigAdd] + AddOps(keys[1..])
  }

  /** k-of-n over the given keys: the first checked, the others added, the count compared with k. */
  function Multisig(keys: seq<PubKey>, k: nat): seq<Opcode> {
    (if keys == [] then [] else [PushKey(keys[0].x), CheckSig] + AddOps(keys[1..])) + [PushNum(k), NumEqual]
  }

  function CovenantScriptOf(params: SystemParams): seq<Opcode> {
    Multisig(SortForScript(params.keys), params.quorum)
  }

  function SlotItem(slot: Option<Signature>): Item {
    if slot.Some? then Sig(slot.value) else Num(0)
  }

  /** The initial stack for the given slots, the last slot on top. */
  function StackOf(slots: seq<Option<Signature>>): (st: Stack)
    ensures |st| == |slots|
  {
    seq(|slots|, i requires 0 <= i < |slots| => SlotItem(slots[i]))
  }

  function Filled(slots: seq<Option<Signature>>): (n: nat)
    ensures n <= |slots|
  {
    if slots == [] then 0
    else Filled(slots[..|slots| - 1]) + (if slots[|slots| - 1].Some? then 1 else 0)
  }

  /** Every filled slot holds a signature of the key at the same place. */
  predicate AllVerify(verify: Verifier, keys: seq<PubKey>, slots: seq<Option<Signature>>)
    requires |keys| == |slots|
  {
    forall i :: 0 <= i < |slots| && slots[i].Some? ==> verify(keys[i].x, slots[i].value)
  }

  lemma ExecTwo(verify: Verifier, a: Opcode, b: Opcode, rest: seq<Opcode>, st: Stack)
    ensures Exec(verify, [a, b] + rest, st)
            == (match ExecOp(verify, a, st)
                case None => None
                case Some(mid) =>
                  match ExecOp(verify, b, mid)
                  case None => None
                  case Some(end) => Exec(verify, rest, end))
  {
    var ops := [a, b] + rest;
    assert ops[0] == a && ops[1..] == [b] + rest;
    assert ops[1..][0] == b && ops[1..][1..] == rest;
  }

  /** `<key> CHECKSIGADD` over a slot and a counter adds the slot's vote to the counter. */
  lemma ExecAdd(verify: Verifier, x: XOnly, rest: seq<Opcode>, below: Stack, slot: Item, c: int)
    ensures Exec(verify, [PushKey(x), CheckSigAdd] + rest, below + [slot] + [Num(c)])
            == (match Vote(verify, x, slot)
                case None => None
                case Some(v) => Exec(verify, rest, below + [Num(c + v)]))
  {
    var st := below + [slot] + [Num(c)] + [Key(x)];
    var n := |st|;
    assert st[n - 1] == Key(x) && st[n - 2] == Num(c) && st[n - 3] == slot;
    assert st[..n - 3] == below;
    ExecTwo(verify, PushKey(x), CheckSigAdd, rest, below + [slot] + [Num(c)]);
  }

  /** `<key> CHECKSIG` over a slot leaves the slot's vote. */
  lemma ExecFirst(verify: Verifier, x: XOnly, rest: seq<Opcode>, below: Stack, slot: Item)
    ensures Exec(verify, [PushKey(x), CheckSig] + rest, below + [slot])
            == (match Vote(verify, x, slot)
                case None => None
                case Some(v) => Exec(verify, rest, below + [Num(v)]))
  {
    var st := below + [slot] + [Key(x)];
    var n := |st|;
    assert st[n - 1] == Key(x) && st[n - 2] == slot;
    assert st[..n - 2] == below;
    ExecTwo(verify, PushKey(x), CheckSig, rest, below + [slot]);
  }

  lemma ExecCompare(verify: Verifier, c: int, k: nat)
    ensures Exec(verify, [PushNum(k), NumEqual], [Num(c)]) == Some([Num(if c == k then 1 else 0)])
  {
    ExecTwo(verify, PushNum(k), NumEqual, [], [Num(c)]);
    var st := [Num(c)] + [Num(k)];
    assert st[1] == Num(k) && st[0] == Num(c) && st[..0] == [];
    assert [PushNum(k), NumEqual] + [] == [PushNum(k), NumEqual];
    assert st[..0] + [Num(if c == k then 1 else 0)] == [Num(if c == k then 1 else 0)];
  }

  /** The adding part for the keys of a descending list, the last key first. */
  function AddOpsDown(desc: seq<PubKey>): seq<Opcode> {
    if desc == [] then []
    else [PushKey(desc[|desc| - 1].x), CheckSigAdd] + AddOpsDown(desc[..|desc| - 1])
  }

  lemma PeelReverse(desc: seq<PubKey>)
    requires desc != []
    ensures Reverse(desc) == [desc[|desc| - 1]] + Reverse(desc[..|desc| - 1])
  {
  }

  lemma {:induction false} AddOpsOfReverse(desc: seq<PubKey>)
    ensures AddOps(Reverse(desc)) == AddOpsDown(desc)
  {
    if desc != [] {
      PeelReverse(desc);
      AddOpsOfReverse(desc[..|desc| - 1]);
      assert Reverse(desc)[1..] == Reverse(desc[..|desc| - 1]);
    }
  }

  lemma PeelMultisig(key: PubKey, keys: seq<PubKey>, k: nat)
    ensures Multisig([key] + keys, k) == [PushKey(key.x), CheckSig] + (AddOps(keys) + [PushNum(k), NumEqual])
  {
    assert ([key] + keys)[1..] == keys;
  }

  lemma PeelStack(slots: seq<Option<Signature>>)
    requires slots != []
    ensures StackOf(slots) == StackOf(slots[..|slots| - 1]) + [SlotItem(slots[|slots| - 1])]
  {
  }

  /** The votes of all slots together, or none if one of them is bad. */
  function Tally(verify: Verifier, keys: seq<PubKey>, slots: seq<Option<Signature>>): Option<nat>
    requires |keys| == |slots|
  {
    if keys == [] then Some(0)
    else
      var n := |keys| - 1;
      match Vote(verify, keys[n].x, SlotItem(slots[n]))
      case None => None
      case Some(v) =>
        var rest := Tally(verify, keys[..n], slots[..n]);
        if rest.None? then None else Some(rest.value + v)
  }

  lemma {:induction false} TallyMeaning(verify: Verifier, keys: seq<PubKey>, slots: seq<Option<Signature>>)
    requires |keys| == |slots|
    ensures Tally(verify, keys, slots) == if AllVerify(verify, keys, slots) then Some(Filled(slots)) else None
  {
    if keys != [] {
      var n := |keys| - 1;
      TallyMeaning(verify, keys[..n], slots[..n]);
      AllVerifySplit(verify, keys, slots);
    }
  }

  lemma AllVerifySplit(verify: Verifier, keys: seq<PubKey>, slots: seq<Option<Signature>>)
    requires |keys| == |slots| > 0
    ensures var n := |slots|;
      AllVerify(verify, keys, slots)
      <==> AllVerify(verify, keys[..n - 1], slots[..n - 1])
           && Vote(verify, keys[n - 1].x, SlotItem(slots[n - 1])).Some?
  {
  }

  /** Running the adding part over a counter `c` consumes the slots and adds up their votes. */
  lemma {:induction false} AddOpsCount(verify: Verifier, desc: seq<PubKey>, slots: seq<Option<Signature>>, c: int, rest: seq<Opcode>)
    requires |desc| == |slots|
    ensures Exec(verify, AddOpsDown(desc) + rest, StackOf(slots) + [Num(c)])
            == match Tally(verify, desc, slots)
               case None => None
               case Some(t) => Exec(verify, rest, [Num(c + t)])
  {
    if desc == [] {
      assert AddOpsDown(desc) + rest == rest;
      assert StackOf(slots) + [Num(c)] == [Num(c)];
    } else {
      AddStep(verify, desc, slots, c, rest);
      var n := |desc| - 1;
      match Vote(verify, desc[n].x, SlotItem(slots[n])) {
        case None =>
        case Some(v) => AddOpsCount(verify, desc[..n], slots[..n], c + v, rest);
      }
    }
  }

  lemma AddStep(verify: Verifier, desc: seq<PubKey>, slots: seq<Option<Signature>>, c: int, rest: seq<Opcode>)
    requires |desc| == |slots| > 0
    ensures var n := |desc| - 1;
      Exec(verify, AddOpsDown(desc) + rest, StackOf(slots) + [Num(c)])
      == match Vote(verify, desc[n].x, SlotItem(slots[n]))
         case None => None
         case Some(v) => Exec(verify, AddOpsDown(desc[..n]) + rest, StackOf(slots[..n]) + [Num(c + v)])
  {
    var n := |desc| - 1;
    var tail := AddOpsDown(desc[..n]) + rest;
    assert AddOpsDown(desc) + rest == [PushKey(desc[n].x), CheckSigAdd] + tail;
    PeelStack(slots);
    ExecAdd(verify, desc[n].x, tail, StackOf(slots[..n]), SlotItem(slots[n]), c);
  }

  lemma FirstStep(verify: Verifier, desc: seq<PubKey>, slots: seq<Option<Signature>>, k: nat)
    requires |desc| == |slots| > 0
    ensures var n := |desc| - 1;
      Exec(verify, Multisig(Reverse(desc), k), StackOf(slots))
      == match Vote(verify, desc[n].x, SlotItem(slots[n]))
         case None => None
         case Some(v) => Exec(verify, AddOpsDown(desc[..n]) + [PushNum(k), NumEqual], StackOf(slots[..n]) + [Num(v)])
  {
    var n := |desc| - 1;
    PeelReverse(desc);
    PeelMultisig(desc[n], Reverse(desc[..n]), k);
    AddOpsOfReverse(desc[..n]);
    PeelStack(slots);
    ExecFirst(verify, desc[n].x, AddOpsDown(desc[..n]) + [PushNum(k), NumEqual], StackOf(slots[..n]), SlotItem(slots[n]));
  }

  /** The script leaves whether the votes add up to `k`, unless a slot is bad. */
  lemma MultisigRun(verify: Verifier, desc: seq<PubKey>, slots: seq<Option<Signature>>, k: nat)
    requires |desc| == |slots| > 0
    ensures Exec(verify, Multisig(Reverse(desc), k), StackOf(slots))
            == match Tally(verify, desc, slots)
               case None => None
               case Some(t) => Some([Num(if t == k then 1 else 0)])
  {
    var n := |desc| - 1;
    FirstStep(verify, desc, slots, k);
    match Vote(verify, desc[n].x, SlotItem(slots[n])) {
      case None =>
      case Some(v) =>
        AddOpsCount(verify, desc[..n], slots[..n], v, [PushNum(k), NumEqual]);
        match Tally(verify, desc[..n], slots[..n]) {
          case None =>
          case Some(t) => ExecCompare(verify, v + t, k);
        }
    }
  }

  /**
   The script over the keys of `desc`, reversed, accepts the slots of `desc` if and only if every
   filled slot verifies and exactly `k` slots are filled.
   */
  lemma MultisigAcceptsIff(verify: Verifier, desc: seq<PubKey>, slots: seq<Option<Signature>>, k: nat)
    requires |desc| == |slots| > 0
    ensures Accepts(verify, Multisig(Reverse(desc), k), StackOf(slots))
            <==> AllVerify(verify, desc, slots) && Filled(slots) == k
  {
    MultisigRun(verify, desc, slots, k);
    TallyMeaning(verify, desc, slots);
  }

  /** With no keys the script has nothing to compare its number with and fails. */
  lemma EmptyCommitteeRejects(verify: Verifier, k: nat)
    ensures !Accepts(verify, Multisig([], k), [])
  {
    ExecTwo(verify, PushNum(k), NumEqual, [], []);
    assert Multisig([], k) == [PushNum(k), NumEqual] + [];
  }

  function XOnlys(pairs: seq<Pair>): set<XOnly> {
    set i | 0 <= i < |pairs| :: pairs[i].key.x
  }

  function MemberXOnlys(keys: seq<PubKey>): set<XOnly> {
    set i | 0 <= i < |keys| :: keys[i].x
  }

  lemma PeelMembers(keys: seq<PubKey>, pairs: seq<Pair>)
    requires keys != [] && DistinctXOnly(keys)
    ensures var n := |keys|;
      var before := MemberXOnlys(keys[..n - 1]) * XOnlys(pairs);
      && keys[n - 1].x !in before
      && MemberXOnlys(keys) * XOnlys(pairs)
         == if keys[n - 1].x in XOnlys(pairs) then before + {keys[n - 1].x} else before
  {
    var n := |keys|;
    var x := keys[n - 1].x;
    assert MemberXOnlys(keys) == MemberXOnlys(keys[..n - 1]) + {x};
    var before := MemberXOnlys(keys[..n - 1]) * XOnlys(pairs);
    assert (MemberXOnlys(keys[..n - 1]) + {x}) * XOnlys(pairs) == before + ({x} * XOnlys(pairs));
  }

  lemma SignedIffListed(pairs: seq<Pair>, x: XOnly)
    ensures LastSignature(pairs, x).Some? <==> x in XOnlys(pairs)
  {
    LastSignatureIsMember(pairs, x);
    assert forall i :: 0 <= i < |pairs| ==> pairs[i] in pairs;
  }

  /** The filled slots are the committee members that appear among the pairs. */
  lemma {:induction false} FilledCount(keys: seq<PubKey>, pairs: seq<Pair>)
    requires DistinctXOnly(keys)
    ensures Filled(Slots(keys, pairs)) == |MemberXOnlys(keys) * XOnlys(pairs)|
  {
    if keys == [] {
      assert MemberXOnlys(keys) * XOnlys(pairs) == {};
    } else {
      var n := |keys|;
      FilledCount(keys[..n - 1], pairs);
      assert Slots(keys, pairs)[..n - 1] == Slots(keys[..n - 1], pairs);
      SignedIffListed(pairs, keys[n - 1].x);
      PeelMembers(keys, pairs);
    }
  }

  lemma XOnlysAppend(init: seq<Pair>, last: Pair)
    ensures XOnlys(init + [last]) == XOnlys(init) + {last.key.x}
    ensures DistinctPairs(init + [last]) <==> DistinctPairs(init) && last.key.x !in XOnlys(init)
  {
    var pairs := init + [last];
    assert forall i :: 0 <= i < |init| ==> pairs[i] == init[i];
    assert pairs[|init|] == last;
    if last.key.x in XOnlys(init) {
      var i :| 0 <= i < |init| && init[i].key.x == last.key.x;
      assert pairs[i].key.x == pairs[|init|].key.x;
    }
  }

  /** The pairs name as many x-only keys as there are pairs exactly when no two name the same. */
  lemma {:induction false} XOnlysCount(pairs: seq<Pair>)
    ensures |XOnlys(pairs)| <= |pairs|
    ensures |XOnlys(pairs)| == |pairs| <==> DistinctPairs(pairs)
  {
    if pairs != [] {
      var init, last := pairs[..|pairs| - 1], pairs[|pairs| - 1];
      XOnlysCount(init);
      XOnlysAppend(init, last);
      assert pairs == init + [last];
      if last.key.x in XOnlys(init) {
        assert XOnlys(pairs) == XOnlys(init);
      }
    }
  }

  lemma AllVerifySorted(verify: Verifier, keys: seq<PubKey>, desc: seq<PubKey>, pairs: seq<Pair>)
    requires multiset(desc) == multiset(keys)
    ensures AllVerify(verify, desc, Slots(desc, pairs))
            <==> forall key :: key in keys && LastSignature(pairs, key.x).Some?
                               ==> verify(key.x, LastSignature(pairs, key.x).value)
    ensures MemberXOnlys(desc) == MemberXOnlys(keys)
  {
    SameMembers(desc, keys);
    assert forall i :: 0 <= i < |desc| ==> desc[i] in keys;
    assert forall i :: 0 <= i < |keys| ==> keys[i] in desc;
    if AllVerify(verify, desc, Slots(desc, pairs)) {
      forall key | key in keys && LastSignature(pairs, key.x).Some?
        ensures verify(key.x, LastSignature(pairs, key.x).value)
      {
        assert key in desc;
        var i :| 0 <= i < |desc| && desc[i] == key;
        assert Slots(desc, pairs)[i].Some?;
      }
    }
  }

  /**
   When exactly the covenant part of a witness satisfies the covenant script, for any pairs that
   were received: the pair kept for each member verifies under that member's key, and the number of
   members with a pair is exactly the quorum.
   */
  lemma WitnessAcceptedIff(verify: Verifier, params: SystemParams, pairs: seq<Pair>)
    requires DistinctXOnly(params.keys) && params.keys != []
    ensures Accepts(verify, CovenantScriptOf(params), StackOf(WitnessSlots(params.keys, pairs)))
            <==> && |MemberXOnlys(params.keys) * XOnlys(pairs)| == params.quorum
                 && (forall key :: key in params.keys && LastSignature(pairs, key.x).Some?
                                   ==> verify(key.x, LastSignature(pairs, key.x).value))
  {
    var desc := SortForWitness(params.keys);
    WitnessOrder(params.keys, []);
    DistinctSurvivesPermutation(params.keys, desc);
    SameMembers(desc, params.keys);
    WitnessOrderReversesScriptOrder(params.keys);
    MultisigAcceptsIff(verify, desc, Slots(desc, pairs), params.quorum);
    FilledCount(desc, pairs);
    AllVerifySorted(verify, params.keys, desc, pairs);
  }

  /** The pairs name distinct committee members, and each signature verifies under the key it names. */
  ghost predicate GoodPairs(verify: Verifier, keys: seq<PubKey>, pairs: seq<Pair>) {
    && DistinctPairs(pairs)
    && forall i :: 0 <= i < |pairs| ==> Vouched(verify, keys, pairs[i])
  }

  /** The pair names a committee member, by x coordinate, under whose own key its signature verifies. */
  predicate Vouched(verify: Verifier, keys: seq<PubKey>, pair: Pair) {
    pair.key.x in MemberXOnlys(keys) && verify(pair.key.x, pair.sig)
  }

  /**
   Verifying pairs of distinct members satisfy the script if and only if there are exactly as many
   of them as the quorum: one fewer fails, and so does one more, which is why a larger set of
   signatures has to be cut to the quorum.
   */
  lemma GoodPairsAcceptedIff(verify: Verifier, params: SystemParams, pairs: seq<Pair>)
    requires DistinctXOnly(params.keys) && params.keys != []
    requires GoodPairs(verify, params.keys, pairs)
    ensures Accepts(verify, CovenantScriptOf(params), StackOf(WitnessSlots(params.keys, pairs)))
            <==> |pairs| == params.quorum
  {
    WitnessAcceptedIff(verify, params, pairs);
    assert XOnlys(pairs) <= MemberXOnlys(params.keys) by {
      assert forall i :: 0 <= i < |pairs| ==> Vouched(verify, params.keys, pairs[i]);
    }
    assert MemberXOnlys(params.keys) * XOnlys(pairs) == XOnlys(pairs);
    XOnlysCount(pairs);
    forall key | key in params.keys && LastSignature(pairs, key.x).Some?
      ensures verify(key.x, LastSignature(pairs, key.x).value)
    {
      LastSignatureIsMember(pairs, key.x);
      var i :| 0 <= i < |pairs| && pairs[i].key.x == key.x && pairs[i].sig == LastSignature(pairs, key.x).value;
      assert Vouched(verify, params.keys, pairs[i]);
    }
  }

  /** Quorum many pairs that fill quorum many slots are all of different members. */
  lemma AllSlotsUsed(keys: seq<PubKey>, pairs: seq<Pair>)
    requires |MemberXOnlys(keys) * XOnlys(pairs)| == |pairs|
    ensures DistinctPairs(pairs) && XOnlys(pairs) <= MemberXOnlys(keys)
  {
    XOnlysCount(pairs);
    SubsetSize(MemberXOnlys(keys) * XOnlys(pairs), XOnlys(pairs));
  }

  /**
   Exactly when quorum many pairs satisfy the script, whoever returned them: they name distinct
   committee members, and each signature verifies under the key it names.
   */
  lemma QuorumAcceptedIff(verify: Verifier, params: SystemParams, pairs: seq<Pair>)
    requires DistinctXOnly(params.keys) && params.keys != []
    requires |pairs| == params.quorum
    ensures Accepts(verify, CovenantScriptOf(params), StackOf(WitnessSlots(params.keys, pairs)))
            <==> GoodPairs(verify, params.keys, pairs)
  {
    if GoodPairs(verify, params.keys, pairs) {
      GoodPairsAcceptedIff(verify, params, pairs);
    }
    WitnessAcceptedIff(verify, params, pairs);
    if Accepts(verify, CovenantScriptOf(params), StackOf(WitnessSlots(params.keys, pairs))) {
      AllSlotsUsed(params.keys, pairs);
      forall i | 0 <= i < |pairs|
        ensures Vouched(verify, params.keys, pairs[i])
      {
        assert pairs[i].key.x in XOnlys(pairs);
        var j :| 0 <= j < |params.keys| && params.keys[j].x == pairs[i].key.x;
        SignatureOfPair(pairs, pairs[i]);
        assert params.keys[j] in params.keys;
      }
    }
  }
}
