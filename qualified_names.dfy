/**
 * The string functions the read context applies to `__type` hints:
 * splitting a qualified name at its first colon, and un-escaping the
 * namespace part.
 */
module QualifiedNames {
  import opened Wrappers
  import opened JsonGlobals

  /** `char.IsWhiteSpace`: the Unicode white-space characters. */
  predicate IsWhiteSpace(c: char)
  {
    var n := c as int;
    (0x09 <= n <= 0x0D) || n == 0x20 || n == 0x85 || n == 0xA0 || n == 0x1680
    || (0x2000 <= n <= 0x200A) || n == 0x2028 || n == 0x2029 || n == 0x202F
    || n == 0x205F || n == 0x3000
  }

  /** Drops leading white space: what is dropped is all white space, and what is left does not start with any. */
  function TrimStart(s: string): (r: string)
    ensures |r| <= |s| && r == s[|s| - |r|..]
    ensures forall i :: 0 <= i < |s| - |r| ==> IsWhiteSpace(s[i])
    ensures r == [] || !IsWhiteSpace(r[0])
  {
    if |s| > 0 && IsWhiteSpace(s[0]) then TrimStart(s[1..]) else s
  }

  /** Drops trailing white space: what is dropped is all white space, and what is left does not end with any. */
  function TrimEnd(s: string): (r: string)
    ensures |r| <= |s| && r == s[..|r|]
    ensures forall i :: |r| <= i < |s| ==> IsWhiteSpace(s[i])
    ensures r == [] || !IsWhiteSpace(r[|r| - 1])
  {
    if |s| > 0 && IsWhiteSpace(s[|s| - 1]) then TrimEnd(s[..|s| - 1]) else s
  }

  /** `string.Trim()`. */
  function Trim(s: string): (r: string)
    ensures |r| <= |TrimStart(s)| <= |s|
    ensures r == s[|s| - |TrimStart(s)|..][..|r|]
    ensures forall i :: 0 <= i < |s| - |TrimStart(s)| ==> IsWhiteSpace(s[i])
    ensures forall i :: |s| - |TrimStart(s)| + |r| <= i < |s| ==> IsWhiteSpace(s[i])
    ensures r == [] || (!IsWhiteSpace(r[0]) && !IsWhiteSpace(r[|r| - 1]))
    ensures s == [] || (!IsWhiteSpace(s[0]) && !IsWhiteSpace(s[|s| - 1])) ==> r == s
    ensures forall c :: c in r ==> c in s
  {
    TrimEnd(TrimStart(s))
  }

  /** `string.IndexOf(c)`: the first position of `c`, with `None` for the source's -1. */
  function IndexOf(s: string, c: char): (r: Option<nat>)
    ensures r.Some? ==> r.value < |s| && s[r.value] == c && c !in s[..r.value]
    ensures r.None? <==> c !in s
  {
    if |s| == 0 then None
    else if s[0] == c then Some(0)
    else match IndexOf(s[1..], c)
      case None => None
      case Some(i) =>
        assert s[..i + 1] == [s[0]] + s[1..][..i];
        Some(i + 1)
  }

  /** An `XmlQualifiedName`: a local name and a namespace, both non-null. */
  datatype QualifiedName = QualifiedName(name: string, ns: string)

  /**
   * `ParseQualifiedName`: null or empty gives two empty strings; otherwise the
   * trimmed input is split at its first colon, the colon itself belonging to
   * neither part, and without a colon the whole trimmed input is the name.
   */
  function ParseQualifiedName(qname: Option<string>): (r: QualifiedName)
    ensures ':' !in r.name
    ensures qname.None? || qname == Some("") ==> r == QualifiedName("", "")
    ensures qname.Some? && qname.value != "" ==>
      var t := Trim(qname.value);
      if ':' in t then r.name + [':'] + r.ns == t else r == QualifiedName(t, "")
  {
    if qname.None? || qname.value == "" then QualifiedName("", "")
    else
      var t := Trim(qname.value);
      match IndexOf(t, ':')
      case Some(colon) =>
        assert t == t[..colon] + [':'] + t[colon + 1..];
        QualifiedName(t[..colon], t[colon + 1..])
      case None => QualifiedName(t, "")
  }

  /** Any split of `t` into a colon-free name, a colon and a rest is the split at the first colon. */
  lemma {:induction false} ColonSplitIsUnique(t: string, name: string, ns: string, name': string, ns': string)
    requires ':' !in name && name + [':'] + ns == t
    requires ':' !in name' && name' + [':'] + ns' == t
    ensures name == name' && ns == ns'
  {
    assert forall k :: 0 <= k < |name| ==> t[k] == name[k] != ':';
    assert forall k :: 0 <= k < |name'| ==> t[k] == name'[k] != ':';
    assert t[|name|] == ':' && t[|name'|] == ':';
    assert |name| == |name'|;
    assert name == t[..|name|] && name' == t[..|name'|];
    assert ns == t[|name| + 1..] && ns' == t[|name'| + 1..];
  }

  /** The parts `ParseQualifiedName` returns are the only colon-free split of the trimmed input. */
  lemma ParseQualifiedNameIsTheColonSplit(qname: string, name: string, ns: string)
    requires ':' !in name && name + [':'] + ns == Trim(qname)
    ensures ParseQualifiedName(Some(qname)) == QualifiedName(name, ns)
  {
    var r := ParseQualifiedName(Some(qname));
    assert Trim(qname)[|name|] == ':';
    ColonSplitIsUnique(Trim(qname), r.name, r.ns, name, ns);
  }

  /** The namespaces `TrimNamespace` rewrites: a leading '#', or '\' followed by '#' or '\'. */
  predicate IsEscapedNamespace(s: string)
  {
    |s| > 0 && (s[0] == '#' || (|s| >= 2 && s[0] == '\\' && (s[1] == '#' || s[1] == '\\')))
  }

  /**
   * `TrimNamespace`: a leading '#' stands for the data contract base namespace;
   * a '\' before '#' or '\' is an escape and is dropped; every other namespace,
   * the empty one, a lone '\' and a '\' before any other character included,
   * is returned as it is.
   */
  function TrimNamespace(s: string): (r: string)
    ensures |s| > 0 && s[0] == '#' ==> r == DataContractXsdBaseNamespace + s[1..]
    ensures |s| >= 2 && s[0] == '\\' && (s[1] == '#' || s[1] == '\\') ==> r == s[1..] && |r| == |s| - 1
    ensures r == s <==> !IsEscapedNamespace(s)
  {
    if |s| == 0 then s
    else if s[0] == '#' then
      assert |DataContractXsdBaseNamespace + s[1..]| != |s|;
      DataContractXsdBaseNamespace + s[1..]
    else if s[0] == '\\' then
      if |s| >= 2 && (s[1] == '#' || s[1] == '\\') then s[1..] else s
    else s
  }

  /**
   * A witness, not a general property: two different namespaces un-escape to
   * the same one, so `TrimNamespace` has no inverse. This is why no
   * encode/decode round trip is stated for it.
   */
  lemma TrimNamespaceIsNotInjective()
    ensures TrimNamespace("#x") == TrimNamespace(DataContractXsdBaseNamespace + "x")
    ensures "#x" != DataContractXsdBaseNamespace + "x"
    ensures TrimNamespace("\\\\a") == TrimNamespace("\\a") && "\\\\a" != "\\a"
  {
    assert (DataContractXsdBaseNamespace + "x")[0] == 'h';
    assert "\\\\a"[1..] == "\\a";
  }
}
