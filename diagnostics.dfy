/**
 * The two errors raised after a JSON object has been matched against its data
 * members: a member seen twice, and required members never seen. Presence is
 * kept in two bit sets indexed by member: `expected` (bit still set while the
 * member has not been read) and `required`.
 */
module Diagnostics {
  import opened SerializationErrors

  /** `ThrowDuplicateMemberException`: always an error, naming the type and the duplicated member. */
  function DuplicateMemberError(typeName: string, memberNames: seq<string>, memberIndex: int): (e: Error)
    requires 0 <= memberIndex < |memberNames|
    ensures e.DuplicateMember? && e.typeName == typeName && e.member == memberNames[memberIndex]
    ensures !IsInternal(e)
  {
    DuplicateMember(typeName, memberNames[memberIndex])
  }

  /**
   * Indices below `k` whose bits are set in both bit sets, in increasing order
   * (`MissingIndexIsListed`: all of them).
   */
  function MissingIndices(k: nat, expected: seq<bool>, required: seq<bool>): (m: seq<nat>)
    requires k <= |expected| && k <= |required|
    ensures forall j :: 0 <= j < |m| ==> m[j] < k && expected[m[j]] && required[m[j]]
    ensures forall a, b :: 0 <= a < b < |m| ==> m[a] < m[b]
  {
    if k == 0 then []
    else MissingIndices(k - 1, expected, required) + (if expected[k - 1] && required[k - 1] then [k - 1] else [])
  }

  /** Every index below `k` whose bits are set in both bit sets is listed. */
  lemma {:induction false} MissingIndexIsListed(k: nat, expected: seq<bool>, required: seq<bool>, i: nat)
    requires k <= |expected| && k <= |required|
    requires i < k && expected[i] && required[i]
    ensures i in MissingIndices(k, expected, required)
  {
    if i < k - 1 {
      MissingIndexIsListed(k - 1, expected, required, i);
    } else {
      var m := MissingIndices(k, expected, required);
      assert m[|m| - 1] == i;
    }
  }

  /** The names of the missing members below `k`, in member order. */
  function MissingNames(names: seq<string>, k: nat, expected: seq<bool>, required: seq<bool>): seq<string>
    requires k <= |names| && k <= |expected| && k <= |required|
  {
    if k == 0 then []
    else MissingNames(names, k - 1, expected, required) + (if expected[k - 1] && required[k - 1] then [names[k - 1]] else [])
  }

  /** The `j`-th missing name is the name of the `j`-th missing index. */
  lemma {:induction false} MissingNamesNameMissingIndices(names: seq<string>, k: nat, expected: seq<bool>, required: seq<bool>)
    requires k <= |names| && k <= |expected| && k <= |required|
    ensures |MissingNames(names, k, expected, required)| == |MissingIndices(k, expected, required)|
    ensures forall j :: 0 <= j < |MissingIndices(k, expected, required)| ==>
      MissingNames(names, k, expected, required)[j] == names[MissingIndices(k, expected, required)[j]]
  {
    if k > 0 {
      MissingNamesNameMissingIndices(names, k - 1, expected, required);
    }
  }

  /** The names joined by `sep`, with no separator before the first or after the last. */
  function Join(xs: seq<string>, sep: string): string
  {
    if |xs| == 0 then "" else if |xs| == 1 then xs[0] else Join(xs[..|xs| - 1], sep) + sep + xs[|xs| - 1]
  }

  /**
   * The text the string builder holds after `k` turns of the loop: each
   * missing name is appended, preceded by ", " when the builder is not empty.
   */
  function Listed(names: seq<string>, k: nat, expected: seq<bool>, required: seq<bool>): string
    requires k <= |names| && k <= |expected| && k <= |required|
  {
    if k == 0 then ""
    else
      var sb := Listed(names, k - 1, expected, required);
      if expected[k - 1] && required[k - 1] then (if |sb| != 0 then sb + ", " else sb) + names[k - 1]
      else sb
  }

  /**
   * Data member names are never empty; for such names the builder holds
   * exactly the missing names joined by ", ".
   */
  lemma {:induction false} ListedIsJoinedMissingNames(names: seq<string>, k: nat, expected: seq<bool>, required: seq<bool>)
    requires k <= |names| && k <= |expected| && k <= |required|
    requires forall i :: 0 <= i < k ==> names[i] != ""
    ensures Listed(names, k, expected, required) == Join(MissingNames(names, k, expected, required), ", ")
    ensures Listed(names, k, expected, required) == "" <==> MissingNames(names, k, expected, required) == []
  {
    if k == 0 {
      assert MissingNames(names, k, expected, required) == [];
    } else {
      ListedIsJoinedMissingNames(names, k - 1, expected, required);
      var prev := MissingNames(names, k - 1, expected, required);
      var cur := MissingNames(names, k, expected, required);
      var sb := Listed(names, k - 1, expected, required);
      if expected[k - 1] && required[k - 1] {
        assert cur == prev + [names[k - 1]];
        assert Listed(names, k, expected, required) == (if |sb| != 0 then sb + ", " else sb) + names[k - 1];
        if prev == [] {
          assert Join(cur, ", ") == names[k - 1];
        } else {
          assert sb == Join(prev, ", ") && |sb| != 0;
          assert cur[..|cur| - 1] == prev;
          assert Join(cur, ", ") == Join(prev, ", ") + ", " + names[k - 1];
        }
      } else {
        assert cur == prev + [] == prev;
        assert Listed(names, k, expected, required) == sb;
      }
    }
  }

  /**
   * `ThrowMissingRequiredMembers`: always an error naming the type. Its list
   * holds the members whose bits are set in both bit sets, in member order,
   * joined by ", " (for non-empty names). Exactly one such member selects the
   * one-member message; any other count, none included, the plural message.
   */
  method ThrowMissingRequiredMembers(typeName: string, memberNames: seq<string>,
                                     expectedElements: seq<bool>, requiredElements: seq<bool>)
    returns (e: Error)
    requires |expectedElements| >= |memberNames| && |requiredElements| >= |memberNames|
    ensures var missing := MissingNames(memberNames, |memberNames|, expectedElements, requiredElements);
            var list := Listed(memberNames, |memberNames|, expectedElements, requiredElements);
            e == if |missing| == 1 then OneRequiredMemberNotFound(typeName, list)
                 else RequiredMembersNotFound(typeName, list)
    ensures (forall i :: 0 <= i < |memberNames| ==> memberNames[i] != "") ==>
            e.members == Join(MissingNames(memberNames, |memberNames|, expectedElements, requiredElements), ", ")
  {
    var builder := "";
    var missingMembersCount := 0;
    var i := 0;
    while i < |memberNames|
      invariant 0 <= i <= |memberNames|
      invariant builder == Listed(memberNames, i, expectedElements, requiredElements)
      invariant missingMembersCount == |MissingNames(memberNames, i, expectedElements, requiredElements)|
    {
      if expectedElements[i] && requiredElements[i] {
        if |builder| != 0 {
          builder := builder + ", ";
        }
        builder := builder + memberNames[i];
        missingMembersCount := missingMembersCount + 1;
      }
      i := i + 1;
    }
    if missingMembersCount == 1 {
      e := OneRequiredMemberNotFound(typeName, builder);
    } else {
      e := RequiredMembersNotFound(typeName, builder);
    }
    if forall j :: 0 <= j < |memberNames| ==> memberNames[j] != "" {
      ListedIsJoinedMissingNames(memberNames, |memberNames|, expectedElements, requiredElements);
    }
  }
}
