/**
 * Resolving which data member a JSON element is. The member names are scanned
 * once, circularly, starting just after the member matched last, because JSON
 * input usually lists members in declaration order. When no name matches
 * directly, a second scan uses the real name carried by an `item` wrapper element.
 */
module MemberIndex {
  import opened Wrappers
  import opened JsonGlobals
  import opened XmlCursor

  /** The `k`-th index visited by a circular scan of `n` members starting at `start`. */
  function RotIndex(start: nat, k: nat, n: nat): (r: nat)
    requires start < n && k < n
    ensures r < n && r == (start + k) % n
  {
    if start + k < n then start + k else start + k - n
  }

  /** How many steps the scan starting at `start` takes to reach index `j`. */
  function RotOffset(start: nat, j: nat, n: nat): (k: nat)
    requires start < n && j < n
    ensures k < n && RotIndex(start, k, n) == j
  {
    if start <= j then j - start else j + n - start
  }

  /**
   * The circular scan visits every index exactly once: `RotOffset` (which
   * reaches every index) and `RotIndex` are inverse to each other.
   */
  lemma RotationVisitsEachIndexOnce(start: nat, n: nat)
    requires start < n
    ensures forall k :: 0 <= k < n ==> RotOffset(start, RotIndex(start, k, n), n) == k
    ensures forall k1, k2 :: 0 <= k1 < n && 0 <= k2 < n && RotIndex(start, k1, n) == RotIndex(start, k2, n) ==> k1 == k2
  {
  }

  /** One step of the source's `index = (index + 1) % length` walks the rotation. */
  lemma RotIndexStep(start: nat, k: nat, n: nat)
    requires start < n && k + 1 < n
    ensures (RotIndex(start, k, n) + 1) % n == RotIndex(start, k + 1, n)
  {
  }

  /** Where both scans of `GetJsonMemberIndex` start: just after the member matched last. */
  function ScanStart(memberIndex: int, n: nat): (start: nat)
    requires memberIndex >= -1 && n > 0
    ensures start < n
  {
    (memberIndex + 1) % n
  }

  /** What a member name is compared with: the reader's element itself, or a name string. */
  datatype Probe = Direct(reader: Cursor) | ByName(name: string)

  /** The per-member test of either scan. */
  predicate Matches(p: Probe, member: string)
  {
    match p
    case Direct(c) => IsStartElement(c, member, "")
    case ByName(name) => member == name
  }

  /** The first rotation offset at or after `k` whose member matches, if any. */
  function FirstMatch(p: Probe, names: seq<string>, start: nat, k: nat): (r: Option<nat>)
    requires start < |names| && k <= |names|
    ensures r.Some? ==> k <= r.value < |names| && Matches(p, names[RotIndex(start, r.value, |names|)])
    ensures r.Some? ==> forall j :: k <= j < r.value ==> !Matches(p, names[RotIndex(start, j, |names|)])
    ensures r.None? ==> forall j :: k <= j < |names| ==> !Matches(p, names[RotIndex(start, j, |names|)])
    decreases |names| - k
  {
    if k == |names| then None
    else if Matches(p, names[RotIndex(start, k, |names|)]) then Some(k)
    else FirstMatch(p, names, start, k + 1)
  }

  /**
   * `TryGetJsonLocalName`: on an `item` start element in the `item` namespace
   * that has an `item` attribute, the attribute's value, with the reader moved
   * onto that attribute; otherwise nothing, and the reader has not moved.
   */
  function TryGetJsonLocalName(reader: Cursor): (r: (Option<string>, Cursor))
    ensures r.0.Some? <==> IsStartElement(reader, ItemString, ItemString) && ItemString in reader.attributes
    ensures r.0.Some? ==> r.0.value == reader.attributes[ItemString]
                          && r.1 == reader.(position := OnAttribute(ItemString))
    ensures r.0.None? ==> r.1 == reader
  {
    if IsStartElement(reader, ItemString, ItemString) then
      var (moved, reader') := MoveToAttribute(reader, ItemString);
      if moved then (Some(Value(reader')), reader') else (None, reader)
    else (None, reader)
  }

  /** `GetJsonMemberName`: the wrapper's real name if there is one, else the element's local name. */
  function GetJsonMemberName(reader: Cursor): (r: (string, Cursor))
    ensures IsStartElement(reader, ItemString, ItemString) && ItemString in reader.attributes
            ==> r.0 == reader.attributes[ItemString] && r.1 == reader.(position := OnAttribute(ItemString))
    ensures !(IsStartElement(reader, ItemString, ItemString) && ItemString in reader.attributes)
            ==> r == (reader.localName, reader)
  {
    var (name, reader') := TryGetJsonLocalName(reader);
    if name.Some? then (name.value, reader') else (reader.localName, reader')
  }

  /** A scan of the whole rotation that finds nothing has tested every member. */
  lemma {:induction false} FullScanMissesAll(p: Probe, names: seq<string>, start: nat)
    requires start < |names| && FirstMatch(p, names, start, 0).None?
    ensures forall j :: 0 <= j < |names| ==> !Matches(p, names[j])
  {
    forall j | 0 <= j < |names|
      ensures !Matches(p, names[j])
    {
      var k := RotOffset(start, j, |names|);
      assert names[RotIndex(start, k, |names|)] == names[j];
    }
  }

  /**
   * The index of the first member in rotation order from `start` that `p`
   * matches; there is none exactly when no member at all matches.
   */
  function ScanResult(p: Probe, names: seq<string>, start: nat): (r: Option<nat>)
    requires start < |names|
    ensures r.Some? ==> r.value < |names| && Matches(p, names[r.value])
    ensures r.None? <==> forall j :: 0 <= j < |names| ==> !Matches(p, names[j])
  {
    match FirstMatch(p, names, start, 0)
    case Some(k) => Some(RotIndex(start, k, |names|))
    case None =>
      FullScanMissesAll(p, names, start);
      None
  }

  /**
   * The index `GetJsonMemberIndex` returns: the first direct match in rotation
   * order; failing that, the first member equal to the wrapper's name; failing
   * that, `|names|`, the "not found" value.
   */
  function ResolvedIndex(reader: Cursor, names: seq<string>, memberIndex: int): nat
    requires memberIndex >= -1
  {
    if |names| == 0 then 0
    else
      var start := ScanStart(memberIndex, |names|);
      match ScanResult(Direct(reader), names, start)
      case Some(i) => i
      case None =>
        match TryGetJsonLocalName(reader).0
        case None => |names|
        case Some(name) =>
          match ScanResult(ByName(name), names, start)
          case Some(i) => i
          case None => |names|
  }

  /**
   * `GetJsonMemberIndex`. `memberNotFound` records that the source calls
   * `HandleMemberNotFound`, which happens exactly when the "not found" value
   * `|names|` is returned. The reader stays where it is unless the direct scan
   * found nothing; then it is where `TryGetJsonLocalName` leaves it.
   */
  method GetJsonMemberIndex(reader: Cursor, names: seq<string>, memberIndex: int)
    returns (index: nat, memberNotFound: bool, reader': Cursor)
    requires memberIndex >= -1
    ensures index == ResolvedIndex(reader, names, memberIndex)
    ensures index <= |names|
    ensures memberNotFound <==> index == |names|
    ensures reader' == (if |names| != 0 && ScanResult(Direct(reader), names, ScanStart(memberIndex, |names|)).None?
                        then TryGetJsonLocalName(reader).1 else reader)
  {
    var length := |names|;
    reader' := reader;
    if length != 0 {
      ghost var start := ScanStart(memberIndex, length);
      var i := 0;
      index := (memberIndex + 1) % length;
      while i < length
        invariant 0 <= i <= length
        invariant i < length ==> index == RotIndex(start, i, length)
        invariant FirstMatch(Direct(reader), names, start, 0) == FirstMatch(Direct(reader), names, start, i)
      {
        if IsStartElement(reader, names[index], "") {
          return index, false, reader;
        }
        if i + 1 < length {
          RotIndexStep(start, i, length);
        }
        i, index := i + 1, (index + 1) % length;
      }
      var tried := TryGetJsonLocalName(reader);
      var name := tried.0;
      reader' := tried.1;
      if name.Some? {
        i, index := 0, (memberIndex + 1) % length;
        while i < length
          invariant 0 <= i <= length
          invariant i < length ==> index == RotIndex(start, i, length)
          invariant FirstMatch(ByName(name.value), names, start, 0) == FirstMatch(ByName(name.value), names, start, i)
        {
          if names[index] == name.value {
            return index, false, reader';
          }
          if i + 1 < length {
            RotIndexStep(start, i, length);
          }
          i, index := i + 1, (index + 1) % length;
        }
      }
    }
    return length, true, reader';
  }

  /**
   * The result is at most `|names|` (0 for no members), and a result below
   * `|names|` names a member that either is the element the reader is on or
   * equals the wrapper's real name.
   */
  lemma ResolvedIndexInRange(reader: Cursor, names: seq<string>, memberIndex: int)
    requires memberIndex >= -1
    ensures ResolvedIndex(reader, names, memberIndex) <= |names|
    ensures |names| == 0 ==> ResolvedIndex(reader, names, memberIndex) == 0
    ensures var r := ResolvedIndex(reader, names, memberIndex);
            r < |names| ==> IsStartElement(reader, names[r], "") || TryGetJsonLocalName(reader).0 == Some(names[r])
  {
  }

  /**
   * "Not found" is returned exactly when no member is the element the reader is
   * on and either there is no wrapper name or no member bears it.
   */
  lemma ResolvedIndexNotFound(reader: Cursor, names: seq<string>, memberIndex: int)
    requires memberIndex >= -1
    ensures ResolvedIndex(reader, names, memberIndex) == |names| <==>
      (forall j :: 0 <= j < |names| ==> !IsStartElement(reader, names[j], "")) &&
      (TryGetJsonLocalName(reader).0.None? || TryGetJsonLocalName(reader).0.value !in names)
  {
    if |names| != 0 {
      var start := ScanStart(memberIndex, |names|);
      var w := TryGetJsonLocalName(reader).0;
      if w.Some? && ScanResult(Direct(reader), names, start).None? {
        var s := ScanResult(ByName(w.value), names, start);
        assert s.Some? <==> w.value in names by {
          if w.value in names {
            var j :| 0 <= j < |names| && names[j] == w.value;
            assert Matches(ByName(w.value), names[j]);
          }
        }
      }
    }
  }

  /** When some member is the element the reader is on, the direct scan decides and the wrapper name is never used. */
  lemma DirectMatchTakesPrecedence(reader: Cursor, names: seq<string>, memberIndex: int, j: nat)
    requires memberIndex >= -1 && j < |names| && IsStartElement(reader, names[j], "")
    ensures var r := ResolvedIndex(reader, names, memberIndex);
            r < |names| && IsStartElement(reader, names[r], "")
  {
    assert Matches(Direct(reader), names[j]);
  }

  /**
   * The direct scan returns the first member in rotation order, starting just
   * after `memberIndex`, that is the element the reader is on.
   */
  lemma ResolvedIndexIsFirstDirectMatch(reader: Cursor, names: seq<string>, memberIndex: int, k: nat)
    requires memberIndex >= -1 && k < |names|
    requires IsStartElement(reader, names[RotIndex(ScanStart(memberIndex, |names|), k, |names|)], "")
    requires forall j :: 0 <= j < k ==> !IsStartElement(reader, names[RotIndex(ScanStart(memberIndex, |names|), j, |names|)], "")
    ensures ResolvedIndex(reader, names, memberIndex) == RotIndex(ScanStart(memberIndex, |names|), k, |names|)
  {
    var start := ScanStart(memberIndex, |names|);
    var f := FirstMatch(Direct(reader), names, start, 0);
    assert f == Some(k) by {
      assert Matches(Direct(reader), names[RotIndex(start, k, |names|)]);
    }
  }

  /** Input in declaration order: the member after the last one matched is found first. */
  lemma NextMemberIsFoundFirst(reader: Cursor, names: seq<string>, memberIndex: int)
    requires memberIndex >= -1 && |names| > 0
    requires IsStartElement(reader, names[ScanStart(memberIndex, |names|)], "")
    ensures ResolvedIndex(reader, names, memberIndex) == ScanStart(memberIndex, |names|)
  {
    ResolvedIndexIsFirstDirectMatch(reader, names, memberIndex, 0);
  }

  /**
   * The name scan runs only when no member matched directly, and it returns
   * the first member in the same rotation order that equals the wrapper name.
   */
  lemma ResolvedIndexIsFirstNameMatch(reader: Cursor, names: seq<string>, memberIndex: int, k: nat)
    requires memberIndex >= -1 && k < |names|
    requires forall j :: 0 <= j < |names| ==> !IsStartElement(reader, names[j], "")
    requires TryGetJsonLocalName(reader).0 == Some(names[RotIndex(ScanStart(memberIndex, |names|), k, |names|)])
    requires forall j :: 0 <= j < k ==>
      names[RotIndex(ScanStart(memberIndex, |names|), j, |names|)] != names[RotIndex(ScanStart(memberIndex, |names|), k, |names|)]
    ensures ResolvedIndex(reader, names, memberIndex) == RotIndex(ScanStart(memberIndex, |names|), k, |names|)
  {
    var start := ScanStart(memberIndex, |names|);
    var w := names[RotIndex(start, k, |names|)];
    var f := FirstMatch(ByName(w), names, start, 0);
    assert f == Some(k) by {
      assert Matches(ByName(w), names[RotIndex(start, k, |names|)]);
    }
  }

  /**
   * An `item` wrapper (namespace `item`) never matches a member directly, so
   * it is resolved by its real name alone: a found member bears that name, and
   * "not found" means no member does.
   */
  lemma WrapperIsResolvedByName(reader: Cursor, names: seq<string>, memberIndex: int)
    requires memberIndex >= -1 && TryGetJsonLocalName(reader).0.Some?
    ensures var r := ResolvedIndex(reader, names, memberIndex);
            var w := TryGetJsonLocalName(reader).0.value;
            (r < |names| ==> names[r] == w) && (r == |names| <==> w !in names)
  {
    assert forall j :: 0 <= j < |names| ==> !IsStartElement(reader, names[j], "");
    ResolvedIndexNotFound(reader, names, memberIndex);
  }
}
