/** Updating the digest of a configuration whose lists are slices shared with other values
    (internal/manager/policy_configuration.go). */
module PolicyDigest {
  import opened Sorting
  import opened Policy

  /** Writes a list over a slice. */
  method WriteBack<T>(a: array<T>, s: seq<T>)
    requires |s| == a.Length
    modifies a
    ensures a[..] == s
  {
    for i := 0 to a.Length
      invariant a[..i] == s[..i]
    {
      a[i] := s[i];
    }
    assert a[..] == a[..a.Length] && s[..a.Length] == s;
  }

  /** Changes every element in place. */
  method Update<T>(a: array<T>, f: T -> T)
    modifies a
    ensures a[..] == Map(f, old(a[..]))
  {
    for i := 0 to a.Length
      invariant forall j :: 0 <= j < i ==> a[j] == f(old(a[j]))
      invariant forall j :: i <= j < a.Length ==> a[j] == old(a[j])
    {
      a[i] := f(a[i]);
    }
  }

  class Record {
    var id: string
    var systemPolicyId: string
    var revisionId: string
    var release: string
    var namespace: int
    var scalars: Scalars
    var digest: string
    var setup: array<Setup>
    var exclusions: array<Exclusion>
    var customRules: array<CustomRule>
    var ipRules: array<IpRule>

    ghost function Value(): Configuration
      reads this, setup, exclusions, customRules, ipRules
    {
      Configuration(id, systemPolicyId, revisionId, release, namespace, scalars, digest, setup[..], exclusions[..], customRules[..], ipRules[..])
    }

    constructor (c: Configuration)
      ensures Value() == c && fresh(setup) && fresh(exclusions) && fresh(customRules) && fresh(ipRules)
    {
      id, systemPolicyId, revisionId, release := c.id, c.systemPolicyId, c.revisionId, c.release;
      namespace, scalars, digest := c.namespace, c.scalars, c.digest;
      setup := new Setup[|c.setup|](i requires 0 <= i < |c.setup| => c.setup[i]);
      exclusions := new Exclusion[|c.exclusions|](i requires 0 <= i < |c.exclusions| => c.exclusions[i]);
      customRules := new CustomRule[|c.customRules|](i requires 0 <= i < |c.customRules| => c.customRules[i]);
      ipRules := new IpRule[|c.ipRules|](i requires 0 <= i < |c.ipRules| => c.ipRules[i]);
      new;
      assert setup[..] == c.setup && exclusions[..] == c.exclusions && customRules[..] == c.customRules && ipRules[..] == c.ipRules;
    }

    /** Cleans every item and sorts every slice in place. */
    method NormalizeLists(f: Cleanup)
      modifies setup, exclusions, customRules, ipRules
      ensures setup[..] == Sort(SetupOrder(f), Map(CleanSetup(f), old(setup[..])))
      ensures exclusions[..] == Sort(ExclusionOrder, Map(CleanExclusion(f), old(exclusions[..])))
      ensures customRules[..] == Sort(RuleOrder, Map(CleanRule(f), old(customRules[..])))
      ensures ipRules[..] == Sort(IpOrder, Map(CleanIp(f), old(ipRules[..])))
    {
      Update(setup, CleanSetup(f));
      Update(exclusions, CleanExclusion(f));
      Update(customRules, CleanRule(f));
      Update(ipRules, CleanIp(f));
      WriteBack(setup, Sort(SetupOrder(f), setup[..]));
      WriteBack(exclusions, Sort(ExclusionOrder, exclusions[..]));
      WriteBack(customRules, Sort(RuleOrder, customRules[..]));
      WriteBack(ipRules, Sort(IpOrder, ipRules[..]));
    }

    method Normalize(f: Cleanup)
      modifies this`scalars, this`namespace, setup, exclusions, customRules, ipRules
      ensures Value() == Policy.Normalize(f, old(Value()))
    {
      scalars := CleanScalars(scalars);
      if namespace == 0 { namespace := 1; }
      NormalizeLists(f);
    }

    /** The copy the digest is taken of has the same slices, so blanking its item ids blanks those of the receiver:
        only its own id and its owner survive. */
    method UpdateDigest(f: Cleanup, hash: Configuration -> string)
      modifies this`scalars, this`namespace, this`digest, setup, exclusions, customRules, ipRules
      ensures Value() == BlankIds(Policy.Normalize(f, old(Value()))).(digest := hash(Snapshot(Policy.Normalize(f, old(Value())))))
    {
      Normalize(f);
      ghost var normal := Value();
      Update(exclusions, BlankExclusion);
      Update(customRules, BlankRule);
      Update(ipRules, BlankIp);
      var copy := Configuration("", "", "", release, namespace, scalars, "", setup[..], exclusions[..], customRules[..], ipRules[..]);
      assert copy == Snapshot(normal);
      digest := hash(copy);
    }

    /** A shallow copy, as assigning a configuration makes: all slices are shared. */
    ghost predicate SharesWith(other: Record)
      reads this, other
    {
      setup == other.setup && exclusions == other.exclusions && customRules == other.customRules && ipRules == other.ipRules
    }
  }

  /** Updating the digest of a configuration takes the item ids of every copy that shares its slices. */
  method UpdateDigestOfCopy(c: Record, copy: Record, f: Cleanup, hash: Configuration -> string)
    requires c != copy && c.SharesWith(copy)
    modifies c`scalars, c`namespace, c`digest, c.setup, c.exclusions, c.customRules, c.ipRules
    ensures forall i :: 0 <= i < copy.exclusions.Length ==> copy.exclusions[i].id == ""
    ensures forall i :: 0 <= i < copy.customRules.Length ==> copy.customRules[i].id == ""
    ensures forall i :: 0 <= i < copy.ipRules.Length ==> copy.ipRules[i].id == ""
    ensures copy.id == old(copy.id) && copy.digest == old(copy.digest) && c.id == old(c.id) && c.revisionId == old(c.revisionId)
  {
    c.UpdateDigest(f, hash);
    assert c.Value().exclusions == copy.exclusions[..] && c.Value().customRules == copy.customRules[..] && c.Value().ipRules == copy.ipRules[..];
    assert forall i :: 0 <= i < copy.exclusions.Length ==> copy.exclusions[i] == c.Value().exclusions[i];
    assert forall i :: 0 <= i < copy.customRules.Length ==> copy.customRules[i] == c.Value().customRules[i];
    assert forall i :: 0 <= i < copy.ipRules.Length ==> copy.ipRules[i] == c.Value().ipRules[i];
  }

  /** Configurations that differ only in item ids, own id, owner and digest have one digest. */
  lemma DigestIgnoresIds(c: Configuration, d: Configuration, hash: Configuration -> string)
    requires BlankIds(c) == BlankIds(d).(id := c.id, systemPolicyId := c.systemPolicyId, revisionId := c.revisionId, digest := c.digest)
    ensures hash(Snapshot(c)) == hash(Snapshot(d))
  {
    assert Snapshot(c) == Snapshot(d);
  }
}
