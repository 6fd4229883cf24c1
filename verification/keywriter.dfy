/** Writing a service-account key: reserve the file, mint the key, write it, and delete the
    remote key again when it cannot be stored. */
module KeyWriter {
  import opened Types

  /** The outside world of one run. `decoded` is the key material once decoded, if it can be.
      A failed write may leave a part of it in the file. A failed deletion may still delete. */
  datatype Script = Script(
    reserves: bool,
    mints: bool,
    mintsAnyway: bool,
    keyName: string,
    decoded: Option<string>,
    writes: bool,
    partial: string,
    removes: bool,
    deletes: bool,
    deletesAnyway: bool
  )

  datatype Outcome =
    | Written
    | NotReserved
    | NotMinted
    | NotStored
    | Orphaned(keyName: string)

  /** The operator's files and the live keys of the service account. */
  class Host {
    var files: map<string, string>
    var keys: set<string>

    constructor (files: map<string, string>, keys: set<string>)
      ensures this.files == files && this.keys == keys
    {
      this.files, this.keys := files, keys;
    }

    /** Creates the file only if there is none; it may also fail for other reasons. */
    method Reserve(path: string, works: bool) returns (ok: bool)
      modifies this`files
      ensures ok <==> works && path !in old(files)
      ensures files == if ok then old(files)[path := ""] else old(files)
    {
      ok := works && path !in files;
      if ok {
        files := files[path := ""];
      }
    }

    method DeleteKey(name: string, script: Script) returns (ok: bool)
      modifies this`keys
      ensures ok == script.deletes
      ensures keys == if script.deletes || script.deletesAnyway then old(keys) - {name} else old(keys)
    {
      if script.deletes || script.deletesAnyway {
        keys := keys - {name};
      }
      ok := script.deletes;
    }
  }

  method DeleteRemoteKey(host: Host, script: Script) returns (outcome: Outcome)
    modifies host`keys
    ensures outcome == if script.deletes then NotStored else Orphaned(script.keyName)
    ensures host.keys
         == if script.deletes || script.deletesAnyway then old(host.keys) - {script.keyName} else old(host.keys)
  {
    var ok := host.DeleteKey(script.keyName, script);
    if !ok {
      return Orphaned(script.keyName);
    }
    return NotStored;
  }

  /** The cleanup every return after the reservation runs: the file goes unless it was written. */
  method Cleanup(host: Host, path: string, wrote: bool, removes: bool)
    modifies host`files
    ensures host.files == if !wrote && removes then old(host.files) - {path} else old(host.files)
  {
    if !wrote && removes {
      host.files := host.files - {path};
    }
  }

  /** What is left of the run in the host, exactly, for every pattern of failures. */
  method WriteServiceAccountKey(host: Host, path: string, script: Script) returns (outcome: Outcome)
    requires script.keyName !in host.keys
    modifies host
    // A file that was already there is never touched, and then no key is minted either.
    ensures path in old(host.files) || !script.reserves <==> outcome == NotReserved
    ensures outcome == NotReserved ==> host.files == old(host.files) && host.keys == old(host.keys)
    // Success: the file holds the decoded material and the key is live.
    ensures outcome == Written <==>
              path !in old(host.files) && script.reserves && script.mints && script.decoded.Some? && script.writes
    ensures outcome == Written ==>
              && host.files == old(host.files)[path := script.decoded.value]
              && host.keys == old(host.keys) + {script.keyName}
    // Failure: no other file is touched, and no new file stays if it can be removed.
    ensures outcome != Written ==> host.files - {path} == old(host.files) - {path}
    ensures outcome != Written && script.removes ==> host.files == old(host.files)
    // Failure: no new key stays, except one whose deletion failed, which the error names, or
    // one minted behind a reported failure.
    ensures outcome != Written ==>
              (script.keyName in host.keys <==>
                 || (outcome == Orphaned(script.keyName) && !script.deletesAnyway)
                 || (outcome == NotMinted && script.mintsAnyway))
    ensures host.keys - {script.keyName} == old(host.keys)
    ensures outcome.Orphaned? ==> outcome.keyName == script.keyName && !script.deletes
  {
    var reserved := host.Reserve(path, script.reserves);
    if !reserved {
      return NotReserved;
    }
    ghost var before := old(host.files);
    assert before[path := ""] - {path} == before;
    outcome := FillReserved(host, path, script);
  }

  /** What follows the reservation of the file. */
  method FillReserved(host: Host, path: string, script: Script) returns (outcome: Outcome)
    requires path in host.files && script.keyName !in host.keys
    modifies host
    ensures outcome != NotReserved
    ensures outcome == Written <==> script.mints && script.decoded.Some? && script.writes
    ensures outcome == Written ==>
              && host.files == old(host.files)[path := script.decoded.value]
              && host.keys == old(host.keys) + {script.keyName}
    ensures outcome != Written ==> host.files - {path} == old(host.files) - {path}
    ensures outcome != Written && script.removes ==> host.files == old(host.files) - {path}
    ensures outcome != Written ==>
              (script.keyName in host.keys <==>
                 || (outcome == Orphaned(script.keyName) && !script.deletesAnyway)
                 || (outcome == NotMinted && script.mintsAnyway))
    ensures host.keys - {script.keyName} == old(host.keys)
    ensures outcome.Orphaned? ==> outcome.keyName == script.keyName && !script.deletes
  {
    var wrote := false;
    if script.mints || script.mintsAnyway {
      host.keys := host.keys + {script.keyName};
    }
    if !script.mints {
      Cleanup(host, path, wrote, script.removes);
      return NotMinted;
    }
    if script.decoded.None? {
      outcome := DeleteRemoteKey(host, script);
      Cleanup(host, path, wrote, script.removes);
      return;
    }
    if !script.writes {
      host.files := host.files[path := script.partial];
      outcome := DeleteRemoteKey(host, script);
      Cleanup(host, path, wrote, script.removes);
      return;
    }
    host.files := host.files[path := script.decoded.value];
    wrote := true;
    Cleanup(host, path, wrote, script.removes);
    return Written;
  }

  // ---- The role binding beside it ---------------------------------------------------------

  /** A binding may carry a condition under which alone it grants its role. */
  datatype Binding = Binding(role: string, condition: Option<string>, members: seq<string>)

  /** The policy gives the member the role under exactly this condition, or under none. */
  predicate Grants(policy: seq<Binding>, member: string, role: string, condition: Option<string>)
  {
    exists i ::
      0 <= i < |policy|
      && policy[i].role == role && policy[i].condition == condition && member in policy[i].members
  }

  /** Where the first binding of the role is; the length if there is none. */
  function FirstOf(policy: seq<Binding>, role: string): (i: nat)
    ensures i <= |policy|
    ensures i < |policy| ==> policy[i].role == role
    ensures forall k :: 0 <= k < i ==> policy[k].role != role
  {
    if policy == [] || policy[0].role == role then 0 else 1 + FirstOf(policy[1..], role)
  }

  /** The condition of the binding the member ends up in: that of the first binding of the role. */
  function ConditionMet(policy: seq<Binding>, role: string): Option<string>
  {
    var i := FirstOf(policy, role);
    if i < |policy| then policy[i].condition else None
  }

  lemma FirstIs(policy: seq<Binding>, role: string, i: nat)
    requires i <= |policy| && forall k :: 0 <= k < i ==> policy[k].role != role
    requires i < |policy| ==> policy[i].role == role
    ensures FirstOf(policy, role) == i
  {
  }

  /** Adds the member to the first binding of the role, whatever its condition, or to a new one
      without condition. It looks no further than that first binding. So the only grant added is
      the one under that binding's condition, and no change is reported exactly when the first
      binding already lists the member. */
  method AddMemberToPolicyBinding(policy: array<Binding>, member: string, role: string)
    returns (changed: bool, result: seq<Binding>)
    modifies policy
    ensures forall m, r, c ::
              Grants(result, m, r, c) <==>
                || Grants(old(policy[..]), m, r, c)
                || (m == member && r == role && c == ConditionMet(old(policy[..]), role))
    // What the caller asked for is the role without condition.
    ensures Grants(result, member, role, None) <==>
              || Grants(old(policy[..]), member, role, None)
              || (forall k :: 0 <= k < |old(policy[..])| ==> old(policy[..])[k].role != role)
              || old(policy[..])[FirstOf(old(policy[..]), role)].condition == None
    ensures var i := FirstOf(old(policy[..]), role);
            !changed <==> i < |old(policy[..])| && member in old(policy[..])[i].members
    ensures !changed ==> result == old(policy[..])
    ensures policy[..] <= result
  {
    ghost var before := policy[..];
    for i := 0 to policy.Length
      invariant policy[..] == before
      invariant forall k :: 0 <= k < i ==> before[k].role != role
    {
      var b := policy[i];
      if b.role != role {
        continue;
      }
      FirstIs(before, role, i);
      if member in b.members {
        assert Grants(before, member, role, b.condition);
        return false, policy[..];
      }
      policy[i] := b.(members := b.members + [member]);
      result := policy[..];
      assert result == before[i := before[i].(members := before[i].members + [member])];
      GrantsAfterUpdate(before, i, member);
      return true, result;
    }
    FirstIs(before, role, policy.Length);
    result := policy[..] + [Binding(role, None, [member])];
    GrantsAfterAppend(before, member, role);
    return true, result;
  }

  lemma GrantsAfterUpdate(policy: seq<Binding>, i: nat, member: string)
    requires i < |policy|
    ensures var b := policy[i];
            var result := policy[i := b.(members := b.members + [member])];
            forall m, r, c ::
              Grants(result, m, r, c) <==>
                Grants(policy, m, r, c) || (m == member && r == b.role && c == b.condition)
  {
    var b := policy[i];
    var result := policy[i := b.(members := b.members + [member])];
    forall m, r, c
      ensures Grants(result, m, r, c) <==> Grants(policy, m, r, c) || (m == member && r == b.role && c == b.condition)
    {
      if Grants(policy, m, r, c) {
        var k :| 0 <= k < |policy|
                 && policy[k].role == r && policy[k].condition == c && m in policy[k].members;
        assert result[k].role == r && result[k].condition == c && m in result[k].members;
      }
      if m == member && r == b.role && c == b.condition {
        assert result[i].role == r && result[i].condition == c && m in result[i].members;
      }
      if Grants(result, m, r, c) {
        var k :| 0 <= k < |result|
                 && result[k].role == r && result[k].condition == c && m in result[k].members;
        assert k != i ==> result[k] == policy[k];
      }
    }
  }

  lemma GrantsAfterAppend(policy: seq<Binding>, member: string, role: string)
    ensures var result := policy + [Binding(role, None, [member])];
            forall m, r, c ::
              Grants(result, m, r, c) <==> Grants(policy, m, r, c) || (m == member && r == role && c == None)
  {
    var result := policy + [Binding(role, None, [member])];
    forall m, r, c
      ensures Grants(result, m, r, c) <==> Grants(policy, m, r, c) || (m == member && r == role && c == None)
    {
      if Grants(policy, m, r, c) {
        var k :| 0 <= k < |policy|
                 && policy[k].role == r && policy[k].condition == c && m in policy[k].members;
        assert result[k].role == r && result[k].condition == c && m in result[k].members;
      }
      if m == member && r == role && c == None {
        assert result[|policy|].role == r && result[|policy|].condition == c && m in result[|policy|].members;
      }
    }
  }

  /** A policy whose first binding of the role holds only until some date: the member gets the role
      until then, although an unconditional binding of the role follows. */
  lemma ConditionalBindingIsUsed(member: string, role: string, until: string)
    ensures var before := [Binding(role, Some(until), []), Binding(role, None, [])];
            var after := before[0 := before[0].(members := [member])];
            && ConditionMet(before, role) == Some(until)
            && Grants(after, member, role, Some(until)) && !Grants(after, member, role, None)
  {
    var before := [Binding(role, Some(until), []), Binding(role, None, [])];
    var after := before[0 := before[0].(members := [member])];
    assert after[0].role == role && after[0].condition == Some(until) && member in after[0].members;
  }
}
