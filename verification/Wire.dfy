/** Deltas and snapshots on the wire between control plane and sidecar. */
module Wire {

  import opened Rules
  import opened Tables
  import opened VersionedWrite

  datatype ProtoRule = ProtoRule(ptype: string, values: seq<string>)

  /** An operation code; any value outside the three known ones is carried as it is. */
  datatype ProtoOp = OpAdd | OpUpdate | OpRemove | OpOther(code: int)

  /** A getter on a message field that is not set yields the empty rule. */
  const NO_RULE := ProtoRule("", [])

  datatype ProtoPolicyChange = ProtoPolicyChange(op: ProtoOp, rule: ProtoRule, oldRule: ProtoRule)
  datatype ProtoDataChange = ProtoDataChange(op: ProtoOp, policy: DataPolicy)
  datatype ProtoDelta = ProtoDelta(version: nat, policyChanges: seq<ProtoPolicyChange>, dataChanges: seq<ProtoDataChange>)
  datatype ProtoSnapshot = ProtoSnapshot(version: nat, rules: seq<ProtoRule>, policies: seq<DataPolicy>)

  /** A rule change as the sidecar's kernel takes it; `oldRule` matters for updates only. */
  datatype PolicyChange = PolicyChange(op: ChangeOp, rule: Rule, oldRule: Rule)
  datatype KernelDelta = KernelDelta(version: nat, policyChanges: seq<PolicyChange>, dataChanges: seq<DataPolicyChange>)
  datatype KernelSnapshot = KernelSnapshot(version: nat, rules: seq<Rule>, policies: seq<DataPolicy>)

  datatype WireError = TooManyValues(n: nat) | UnknownOp(code: int)

  const BLANK: Rule := Line("", ["", "", "", "", "", ""])

  // ---------------------------------------------------------------- rules: trimming and padding

  /** The columns without trailing empty ones. */
  function Trim(v: seq<string>): (r: seq<string>)
    ensures r <= v && (r == [] || r[|r| - 1] != "")
  {
    if v == [] || v[|v| - 1] != "" then v else Trim(v[..|v| - 1])
  }

  function Blanks(n: nat): (r: seq<string>)
    ensures |r| == n && forall i :: 0 <= i < n ==> r[i] == ""
  {
    seq(n, i requires 0 <= i < n => "")
  }

  function Pad(values: seq<string>): (v: seq<string>)
    requires |values| <= 6
    ensures |v| == 6
  {
    values + Blanks(6 - |values|)
  }

  lemma {:induction false} TrimmedAreBlank(v: seq<string>)
    ensures forall i :: |Trim(v)| <= i < |v| ==> v[i] == ""
  {
    if v != [] && v[|v| - 1] == "" {
      TrimmedAreBlank(v[..|v| - 1]);
      assert forall i :: 0 <= i < |v| - 1 ==> v[..|v| - 1][i] == v[i];
    }
  }

  /** Padding undoes trimming for every rule of six columns. */
  lemma PadUndoesTrim(r: Rule)
    ensures |Trim(r.v)| <= 6 && Pad(Trim(r.v)) == r.v
  {
    TrimmedAreBlank(r.v);
  }

  /** Trimming undoes padding exactly for values that do not end in an empty one. */
  lemma {:induction false} TrimUndoesPad(values: seq<string>)
    requires |values| <= 6
    ensures Trim(Pad(values)) == values <==> values == [] || values[|values| - 1] != ""
  {
    TrimBlanks(values, 6 - |values|);
  }

  lemma {:induction false} TrimBlanks(values: seq<string>, n: nat)
    ensures Trim(values + Blanks(n)) == Trim(values)
  {
    if n > 0 {
      assert (values + Blanks(n))[..|values| + n - 1] == values + Blanks(n - 1);
      TrimBlanks(values, n - 1);
    } else {
      assert values + Blanks(0) == values;
    }
  }

  function EncodeRule(r: Rule): ProtoRule {
    ProtoRule(r.ptype, Trim(r.v))
  }

  function DecodeRule(p: ProtoRule): Result<Rule, WireError> {
    if |p.values| > 6 then Failure(TooManyValues(|p.values|)) else Success(Line(p.ptype, Pad(p.values)))
  }

  /** Two rules that differ also differ once trimmed, so a store of trimmed rules is a store of rules. */
  lemma EncodeRuleInjective(a: Rule, b: Rule)
    requires EncodeRule(a) == EncodeRule(b)
    ensures a == b
  {
    PadUndoesTrim(a);
    PadUndoesTrim(b);
  }

  method RuleToProto(r: Rule) returns (p: ProtoRule)
    ensures p == EncodeRule(r)
  {
    var n := |r.v|;
    assert r.v[..n] == r.v;
    while n > 0 && r.v[n - 1] == ""
      invariant 0 <= n <= 6 && Trim(r.v) == Trim(r.v[..n])
    {
      assert r.v[..n][..n - 1] == r.v[..n - 1];
      n := n - 1;
    }
    p := ProtoRule(r.ptype, r.v[..n]);
  }

  // ---------------------------------------------------------------- changes

  function EncodeOp(op: ChangeOp): ProtoOp {
    match op
    case ChangeAdd => OpAdd
    case ChangeUpdate => OpUpdate
    case ChangeRemove => OpRemove
  }

  function DecodeOp(op: ProtoOp): Result<ChangeOp, WireError> {
    match op
    case OpAdd => Success(ChangeAdd)
    case OpUpdate => Success(ChangeUpdate)
    case OpRemove => Success(ChangeRemove)
    case OpOther(code) => Failure(UnknownOp(code))
  }

  function EncodeAdd(r: Rule): ProtoPolicyChange {
    ProtoPolicyChange(OpAdd, EncodeRule(r), NO_RULE)
  }

  function EncodeRemove(r: Rule): ProtoPolicyChange {
    ProtoPolicyChange(OpRemove, NO_RULE, EncodeRule(r))
  }

  function EncodeDataChange(c: DataPolicyChange): ProtoDataChange {
    ProtoDataChange(EncodeOp(c.op), c.policy)
  }

  /** Which of the two rules carries the change depends on the operation; the kernel reads it from `rule`. */
  function DecodeChange(c: ProtoPolicyChange): Result<PolicyChange, WireError> {
    var op :- DecodeOp(c.op);
    match op
    case ChangeAdd => var rule :- DecodeRule(c.rule); Success(PolicyChange(op, rule, BLANK))
    case ChangeRemove => var rule :- DecodeRule(c.oldRule); Success(PolicyChange(op, rule, BLANK))
    case ChangeUpdate =>
      var rule :- DecodeRule(c.rule);
      var oldRule :- DecodeRule(c.oldRule);
      Success(PolicyChange(op, rule, oldRule))
  }

  function DecodeDataChange(c: ProtoDataChange): Result<DataPolicyChange, WireError> {
    var op :- DecodeOp(c.op);
    Success(DataPolicyChange(op, c.policy))
  }

  /** An update arrives with its new and its old rule as they were sent. */
  lemma UpdateRoundTrip(r: Rule, oldRule: Rule)
    ensures DecodeChange(ProtoPolicyChange(OpUpdate, EncodeRule(r), EncodeRule(oldRule))) == Success(PolicyChange(ChangeUpdate, r, oldRule))
  {
    PadUndoesTrim(r);
    PadUndoesTrim(oldRule);
    hide Pad, Trim;
  }

  /** A change is refused exactly when its operation is unknown or a rule that the operation uses has more than six values. */
  lemma ChangeIsRefusedIff(c: ProtoPolicyChange)
    ensures DecodeChange(c).Failure? <==>
      || c.op.OpOther?
      || (c.op != OpRemove && |c.rule.values| > 6)
      || (c.op != OpAdd && |c.oldRule.values| > 6)
    ensures c.op.OpOther? ==> DecodeChange(c) == Failure(UnknownOp(c.op.code))
    ensures DecodeChange(c).Failure? && !c.op.OpOther? ==>
      DecodeChange(c).error == TooManyValues(if c.op != OpRemove && |c.rule.values| > 6 then |c.rule.values| else |c.oldRule.values|)
  {
  }

  function Map<A, B>(f: A -> B, xs: seq<A>): (ys: seq<B>)
    ensures |ys| == |xs| && forall i :: 0 <= i < |xs| ==> ys[i] == f(xs[i])
  {
    seq(|xs|, i requires 0 <= i < |xs| => f(xs[i]))
  }

  function EncodeDelta(d: Delta): ProtoDelta {
    ProtoDelta(d.version, Map(EncodeAdd, d.adds) + Map(EncodeRemove, d.removes), Map(EncodeDataChange, d.changes))
  }

  method DeltaToProto(d: Delta) returns (p: ProtoDelta)
    ensures p == EncodeDelta(d)
  {
    p := ProtoDelta(d.version, [], []);
    for i := 0 to |d.adds|
      invariant p == ProtoDelta(d.version, Map(EncodeAdd, d.adds[..i]), [])
    {
      var rule := RuleToProto(d.adds[i]);
      p := p.(policyChanges := p.policyChanges + [ProtoPolicyChange(OpAdd, rule, NO_RULE)]);
    }
    assert d.adds[..|d.adds|] == d.adds;
    for i := 0 to |d.removes|
      invariant p == ProtoDelta(d.version, Map(EncodeAdd, d.adds) + Map(EncodeRemove, d.removes[..i]), [])
    {
      var rule := RuleToProto(d.removes[i]);
      assert Map(EncodeRemove, d.removes[..i + 1]) == Map(EncodeRemove, d.removes[..i]) + [EncodeRemove(d.removes[i])];
      p := p.(policyChanges := p.policyChanges + [ProtoPolicyChange(OpRemove, NO_RULE, rule)]);
    }
    assert d.removes[..|d.removes|] == d.removes;
    for i := 0 to |d.changes|
      invariant p == EncodeDelta(d).(dataChanges := Map(EncodeDataChange, d.changes[..i]))
    {
      p := p.(dataChanges := p.dataChanges + [EncodeDataChange(d.changes[i])]);
    }
    assert d.changes[..|d.changes|] == d.changes;
  }

  ghost predicate Decodable(p: ProtoDelta) {
    && (forall i :: 0 <= i < |p.policyChanges| ==> DecodeChange(p.policyChanges[i]).Success?)
    && (forall i :: 0 <= i < |p.dataChanges| ==> DecodeDataChange(p.dataChanges[i]).Success?)
  }

  /** The decoded delta holds the decoded changes, in order. */
  ghost predicate IsDecoding(p: ProtoDelta, d: KernelDelta) {
    && d.version == p.version
    && |d.policyChanges| == |p.policyChanges| && |d.dataChanges| == |p.dataChanges|
    && (forall i :: 0 <= i < |p.policyChanges| ==> DecodeChange(p.policyChanges[i]) == Success(d.policyChanges[i]))
    && (forall i :: 0 <= i < |p.dataChanges| ==> DecodeDataChange(p.dataChanges[i]) == Success(d.dataChanges[i]))
  }

  /** One change that cannot be decoded spoils the whole delta. */
  method DeltaFromProto(p: ProtoDelta) returns (r: Result<KernelDelta, WireError>)
    ensures r.Success? <==> Decodable(p)
    ensures r.Success? ==> IsDecoding(p, r.value)
  {
    var d := KernelDelta(p.version, [], []);
    for i := 0 to |p.policyChanges|
      invariant d.version == p.version && |d.policyChanges| == i && d.dataChanges == []
      invariant forall j :: 0 <= j < i ==> DecodeChange(p.policyChanges[j]) == Success(d.policyChanges[j])
    {
      var c := DecodeChange(p.policyChanges[i]);
      if c.Failure? {
        return Failure(c.error);
      }
      d := d.(policyChanges := d.policyChanges + [c.value]);
    }
    ghost var policyChanges := d.policyChanges;
    for i := 0 to |p.dataChanges|
      invariant d.version == p.version && d.policyChanges == policyChanges && |d.dataChanges| == i
      invariant forall j :: 0 <= j < i ==> DecodeDataChange(p.dataChanges[j]) == Success(d.dataChanges[j])
    {
      var c := DecodeDataChange(p.dataChanges[i]);
      if c.Failure? {
        return Failure(c.error);
      }
      d := d.(dataChanges := d.dataChanges + [c.value]);
    }
    return Success(d);
  }

  // ---------------------------------------------------------------- snapshots

  function EncodeSnapshot(version: nat, rules: seq<Rule>, policies: seq<DataPolicy>): ProtoSnapshot {
    ProtoSnapshot(version, Map(EncodeRule, rules), policies)
  }

  method SnapshotFromProto(p: ProtoSnapshot) returns (r: Result<KernelSnapshot, WireError>)
    ensures r.Success? <==> forall i :: 0 <= i < |p.rules| ==> |p.rules[i].values| <= 6
    ensures r.Success? ==> r.value.version == p.version && r.value.policies == p.policies && |r.value.rules| == |p.rules|
    ensures r.Success? ==> forall i :: 0 <= i < |p.rules| ==> DecodeRule(p.rules[i]) == Success(r.value.rules[i])
  {
    var rules: seq<Rule> := [];
    for i := 0 to |p.rules|
      invariant |rules| == i
      invariant forall j :: 0 <= j < i ==> DecodeRule(p.rules[j]) == Success(rules[j])
    {
      var rule := DecodeRule(p.rules[i]);
      if rule.Failure? {
        return Failure(rule.error);
      }
      rules := rules + [rule.value];
    }
    return Success(KernelSnapshot(p.version, rules, p.policies));
  }

  /** A snapshot arrives as it was read. */
  lemma SnapshotRoundTrip(version: nat, rules: seq<Rule>, policies: seq<DataPolicy>, k: KernelSnapshot)
    requires k.version == version && k.policies == policies && |k.rules| == |rules|
    requires var p := EncodeSnapshot(version, rules, policies);
      forall i :: 0 <= i < |rules| ==> DecodeRule(p.rules[i]) == Success(k.rules[i])
    ensures k.rules == rules
  {
    forall i | 0 <= i < |rules|
      ensures k.rules[i] == rules[i]
    {
      PadUndoesTrim(rules[i]);
    }
  }

  /** What arrives is the same adds and removes, with every rule in the field the kernel reads. */
  lemma EncodedDecodes(d: Delta)
    ensures Decodable(EncodeDelta(d))
    ensures forall k: KernelDelta | IsDecoding(EncodeDelta(d), k) :: IsArrival(d, k)
  {
    var p := EncodeDelta(d);
    forall i | 0 <= i < |d.adds|
      ensures DecodeChange(EncodeAdd(d.adds[i])) == Success(PolicyChange(ChangeAdd, d.adds[i], BLANK))
    {
      PadUndoesTrim(d.adds[i]);
    }
    forall i | 0 <= i < |d.removes|
      ensures DecodeChange(EncodeRemove(d.removes[i])) == Success(PolicyChange(ChangeRemove, d.removes[i], BLANK))
    {
      PadUndoesTrim(d.removes[i]);
    }
    hide DecodeRule, EncodeRule, DecodeChange;
    forall i | 0 <= i < |p.policyChanges|
      ensures DecodeChange(p.policyChanges[i]) == Success(Arrived(d, i))
    {
      if i >= |d.adds| {
        assert p.policyChanges[i] == EncodeRemove(d.removes[i - |d.adds|]);
      }
    }
    forall i | 0 <= i < |p.dataChanges|
      ensures DecodeDataChange(p.dataChanges[i]) == Success(d.changes[i])
    {
    }
  }

  /** The adds come first, then the removes. */
  function Arrived(d: Delta, i: nat): PolicyChange
    requires i < |d.adds| + |d.removes|
  {
    if i < |d.adds| then PolicyChange(ChangeAdd, d.adds[i], BLANK) else PolicyChange(ChangeRemove, d.removes[i - |d.adds|], BLANK)
  }

  ghost predicate IsArrival(d: Delta, k: KernelDelta) {
    && k.version == d.version && k.dataChanges == d.changes
    && |k.policyChanges| == |d.adds| + |d.removes|
    && forall i :: 0 <= i < |k.policyChanges| ==> k.policyChanges[i] == Arrived(d, i)
  }
}
