/**
 * FieldTypeTable of nf.py: the NetFlow v9 field catalogue (id, default length, formatter, name),
 * and the u_int / byte_a formatters that turn a declared field length into a struct format item.
 */
module FieldCatalog {
  import opened Wrappers
  import opened Text
  import opened Structuple

  /** u_int(length): one unsigned integer for lengths 1, 2, 4 and 8, otherwise byte_a(length). */
  function UIntCode(length: nat): (c: Code)
    ensures ValidCode(c) && Width(c) == length
    ensures Arity(c) == if length in {1, 2, 4, 8} then 1 else length
  {
    if length in {1, 2, 4, 8} then Uint(length) else ByteArrayCode(length)
  }

  /** byte_a(length): length separate unsigned bytes ('nB'). */
  function ByteArrayCode(length: nat): (c: Code)
    ensures ValidCode(c) && Width(c) == length && Arity(c) == length
  {
    ByteRun(length)
  }

  /** The formatter a catalogue entry carries. */
  datatype Formatter = UInt | ByteArray

  function Format(f: Formatter, length: nat): Code
  {
    match f
    case UInt => UIntCode(length)
    case ByteArray => ByteArrayCode(length)
  }

  datatype FieldSpec = FieldSpec(id: nat, defaultLength: nat, formatter: Formatter, name: string)

  /**
   * The catalogue in source order: the NetFlow v9 fields, then Cisco NSEL, then Cisco NEL.
   * It is written as consecutive runs so that facts about single entries stay cheap to prove.
   */
  const Table: seq<FieldSpec> := V9Fields1To24 + V9Fields27To50 + V9Fields55To64 + V9Fields70To129 + Nsel + Nel

  /** NetFlow v9 field types 1 to 24 (RFC 3954, section 8). */
  const V9Fields1To24: seq<FieldSpec> := [
    FieldSpec(1, 4, UInt, "IN_BYTES"),
    FieldSpec(2, 4, UInt, "IN_PKTS"),
    FieldSpec(3, 4, UInt, "FLOWS"),
    FieldSpec(4, 1, UInt, "PROTOCOL"),
    FieldSpec(5, 1, UInt, "TOS"),
    FieldSpec(6, 1, UInt, "TCP_FLAGS"),
    FieldSpec(7, 2, UInt, "L4_SRC_PORT"),
    FieldSpec(8, 4, UInt, "IPV4_SRC_ADDR"),
    FieldSpec(9, 1, UInt, "SRC_MASK"),
    FieldSpec(10, 2, UInt, "INPUT_SNMP"),
    FieldSpec(11, 2, UInt, "L4_DST_PORT"),
    FieldSpec(12, 4, UInt, "IPV4_DST_ADDR"),
    FieldSpec(13, 1, UInt, "DST_MASK"),
    FieldSpec(14, 2, UInt, "OUTPUT_SNMP"),
    FieldSpec(15, 4, UInt, "IPV4_NEXT_HOP"),
    FieldSpec(16, 2, UInt, "SRC_AS"),
    FieldSpec(17, 2, UInt, "DST_AS"),
    FieldSpec(18, 4, UInt, "BGP_IPV4_NEXT_HOP"),
    FieldSpec(19, 4, UInt, "MUL_DST_PKTS"),
    FieldSpec(20, 4, UInt, "MUL_DST_BYTES"),
    FieldSpec(21, 4, UInt, "LAST_SWITCHED"),
    FieldSpec(22, 4, UInt, "FIRST_SWITCHED"),
    FieldSpec(23, 4, UInt, "OUT_BYTES"),
    FieldSpec(24, 4, UInt, "OUT_PKTS")
  ]

  /** NetFlow v9 field types 27 to 50. */
  const V9Fields27To50: seq<FieldSpec> := [
    FieldSpec(27, 16, UInt, "IPV6_SRC_ADDR"),
    FieldSpec(28, 16, UInt, "IPV6_DST_ADDR"),
    FieldSpec(29, 1, UInt, "IPV6_SRC_MASK"),
    FieldSpec(30, 1, UInt, "IPV6_DST_MASK"),
    FieldSpec(31, 3, UInt, "IPV6_FLOW_LABEL"),
    FieldSpec(32, 2, UInt, "ICMP_TYPE"),
    FieldSpec(33, 1, UInt, "MUL_IGMP_TYPE"),
    FieldSpec(34, 4, UInt, "SAMPLING_INTERVAL"),
    FieldSpec(35, 1, UInt, "SAMPLING_ALGORITHM"),
    FieldSpec(36, 2, UInt, "FLOW_ACTIVE_TIMEOUT"),
    FieldSpec(37, 2, UInt, "FLOW_INACTIVE_TIMEOUT"),
    FieldSpec(38, 1, UInt, "ENGINE_TYPE"),
    FieldSpec(39, 1, UInt, "ENGINE_ID"),
    FieldSpec(40, 4, UInt, "TOTAL_BYTES_EXP"),
    FieldSpec(41, 4, UInt, "TOTAL_PKTS_EXP"),
    FieldSpec(42, 4, UInt, "TOTAL_FLOWS_EXP"),
    FieldSpec(46, 1, UInt, "MPLS_TOP_LABEL_TYPE"),
    FieldSpec(47, 4, UInt, "MPLS_TOP_LABEL_IP_ADDR"),
    FieldSpec(48, 1, UInt, "FLOW_SAMPLER_ID"),
    FieldSpec(49, 1, UInt, "FLOW_SAMPLER_MODE"),
    FieldSpec(50, 4, UInt, "FLOW_SAMPLER_RANDOM_INTERVAL")
  ]

  /** NetFlow v9 field types 55 to 64. */
  const V9Fields55To64: seq<FieldSpec> := [
    FieldSpec(55, 1, UInt, "DST_TOS"),
    FieldSpec(56, 6, UInt, "SRC_MAC"),
    FieldSpec(57, 6, UInt, "DST_MAC"),
    FieldSpec(58, 2, UInt, "SRC_VLAN"),
    FieldSpec(59, 2, UInt, "DST_VLAN"),
    FieldSpec(60, 1, UInt, "IP_PROTOCOL_VERSION"),
    FieldSpec(61, 1, UInt, "DIRECTION"),
    FieldSpec(62, 16, UInt, "IPV6_NEXT_HOP"),
    FieldSpec(63, 16, UInt, "BGP_IPV6_NEXT_HOP"),
    FieldSpec(64, 4, UInt, "IPV6_OPTION_HEADERS")
  ]

  /** NetFlow v9 field types 70 to 129. */
  const V9Fields70To129: seq<FieldSpec> := [
    FieldSpec(70, 3, UInt, "MPLS_LABEL_1"),
    FieldSpec(71, 3, UInt, "MPLS_LABEL_2"),
    FieldSpec(72, 3, UInt, "MPLS_LABEL_3"),
    FieldSpec(73, 3, UInt, "MPLS_LABEL_4"),
    FieldSpec(74, 3, UInt, "MPLS_LABEL_5"),
    FieldSpec(75, 3, UInt, "MPLS_LABEL_6"),
    FieldSpec(76, 3, UInt, "MPLS_LABEL_7"),
    FieldSpec(77, 3, UInt, "MPLS_LABEL_8"),
    FieldSpec(78, 3, UInt, "MPLS_LABEL_9"),
    FieldSpec(79, 3, UInt, "MPLS_LABEL_10"),
    FieldSpec(80, 6, UInt, "IN_DST_MAC"),
    FieldSpec(81, 6, UInt, "OUT_SRC_MAC"),
    FieldSpec(82, 0, ByteArray, "IF_NAME"),
    FieldSpec(83, 0, ByteArray, "IF_DESC"),
    FieldSpec(84, 0, ByteArray, "SAMPLER_NAME"),
    FieldSpec(85, 0, UInt, "IN_PERMANENT_BYTES"),
    FieldSpec(86, 0, UInt, "IN_PERMANENT_PKTS"),
    FieldSpec(89, 1, UInt, "FORWARDING_STATUS"),
    FieldSpec(128, 4, UInt, "BGP_ADJ_NEXT_AS"),
    FieldSpec(129, 4, UInt, "BGP_ADJ_PREV_AS")
  ]

  /** Cisco NSEL (firewall event logging) field types. */
  const Nsel: seq<FieldSpec> := [
    FieldSpec(148, 4, UInt, "CONN_ID"),
    FieldSpec(176, 1, UInt, "ICMP_TYPE"),
    FieldSpec(177, 1, UInt, "ICMP_CODE"),
    FieldSpec(178, 1, UInt, "ICMP_TYPE_IPV6"),
    FieldSpec(179, 1, UInt, "ICMP_CODE_IPV6"),
    FieldSpec(225, 4, UInt, "XLATE_SRC_ADDR_IPV4"),
    FieldSpec(226, 4, UInt, "XLATE_DST_ADDR_IPV4"),
    FieldSpec(227, 2, UInt, "XLATE_SRC_PORT"),
    FieldSpec(228, 2, UInt, "XLATE_DST_PORT"),
    FieldSpec(281, 16, UInt, "XLATE_SRC_ADDR_IPV6"),
    FieldSpec(282, 16, UInt, "XLATE_DST_ADDR_IPV6"),
    FieldSpec(233, 1, UInt, "FW_EVENT"),
    FieldSpec(33002, 2, UInt, "FW_EXT_EVENT"),
    FieldSpec(323, 8, UInt, "EVENT_TIME_MSEC"),
    FieldSpec(324, 8, UInt, "EVENT_TIME_USEC"),
    FieldSpec(325, 8, UInt, "EVENT_TIME_NSEC"),
    FieldSpec(152, 8, UInt, "FLOW_CREATE_TIME_MSEC"),
    FieldSpec(231, 4, UInt, "FWD_FLOW_DELTA_BYTES"),
    FieldSpec(232, 4, UInt, "REV_FLOW_DELTA_BYTES"),
    FieldSpec(33000, 12, ByteArray, "INGRESS_ACL_ID"),
    FieldSpec(33001, 12, ByteArray, "EGRESS_ACL_ID"),
    FieldSpec(40000, 0, ByteArray, "USERNAME")
  ]

  /** Cisco NAT event logging field types. */
  const Nel: seq<FieldSpec> := [
    FieldSpec(230, 1, UInt, "NAT_EVENT"),
    FieldSpec(234, 4, UInt, "INGRESS_VRFID"),
    FieldSpec(235, 4, UInt, "EGRESS_VRFID"),
    FieldSpec(361, 2, UInt, "XLATE_PORT_BLOCK_START"),
    FieldSpec(362, 2, UInt, "XLATE_PORT_BLOCK_END"),
    FieldSpec(363, 2, UInt, "XLATE_PORT_BLOCK_STEP"),
    FieldSpec(364, 2, UInt, "XLATE_PORT_BLOCK_SIZE")
  ]

  /** _lookup_id: the entries keyed by id, a later entry replacing an earlier one with the same id. */
  function IdIndex(t: seq<FieldSpec>): map<nat, FieldSpec>
  {
    if t == [] then map[] else IdIndex(t[..|t| - 1])[t[|t| - 1].id := t[|t| - 1]]
  }

  /** _lookup_name: the entries keyed by name, a later entry replacing an earlier one with the same name. */
  function NameIndex(t: seq<FieldSpec>): map<string, FieldSpec>
  {
    if t == [] then map[] else NameIndex(t[..|t| - 1])[t[|t| - 1].name := t[|t| - 1]]
  }

  /** The name given to a field id the catalogue does not know: 'FIELD_{0}'.format(id). */
  function UnknownName(id: nat): string
  {
    "FIELD_" + Decimal(id)
  }

  /** get on a built id index: the registered entry, or a synthetic u_int entry of default length 0. */
  function Resolve(lookupId: map<nat, FieldSpec>, id: nat): FieldSpec
  {
    if id in lookupId then lookupId[id] else FieldSpec(id, 0, UInt, UnknownName(id))
  }

  /** get_by_name on a built name index: the registered entry, or None. */
  function ResolveName(lookupName: map<string, FieldSpec>, name: string): Option<FieldSpec>
  {
    if name in lookupName then Some(lookupName[name]) else None
  }

  /** FieldTypeTable: both dictionaries are filled by one pass over the entry list. */
  class FieldTypeTable {
    ghost const entries: seq<FieldSpec>
    const lookupId: map<nat, FieldSpec>
    const lookupName: map<string, FieldSpec>

    constructor(table: seq<FieldSpec>)
      ensures entries == table
      ensures lookupId == IdIndex(table) && lookupName == NameIndex(table)
    {
      var byId: map<nat, FieldSpec> := map[];
      var byName: map<string, FieldSpec> := map[];
      var k := 0;
      while k < |table|
        invariant k <= |table|
        invariant byId == IdIndex(table[..k]) && byName == NameIndex(table[..k])
      {
        assert table[..k + 1][..k] == table[..k];
        byId := byId[table[k].id := table[k]];
        byName := byName[table[k].name := table[k]];
        k := k + 1;
      }
      assert table[..k] == table;
      entries := table;
      lookupId := byId;
      lookupName := byName;
    }

    /** The dictionaries hold what the entry list says. */
    ghost predicate Valid()
    {
      lookupId == IdIndex(entries) && lookupName == NameIndex(entries)
    }

    /** FieldTypeTable.get */
    function Get(id: nat): FieldSpec
    {
      Resolve(lookupId, id)
    }

    /** FieldTypeTable.get_by_name */
    function GetByName(name: string): Option<FieldSpec>
    {
      ResolveName(lookupName, name)
    }
  }

  // ---------------------------------------------------------------------
  // What the lookups promise.

  /** Every key of the id index maps to an entry of the table with that id. */
  lemma {:induction false} IdIndexSound(t: seq<FieldSpec>, id: nat)
    requires id in IdIndex(t)
    ensures IdIndex(t)[id].id == id && IdIndex(t)[id] in t
  {
    if t != [] && t[|t| - 1].id != id {
      IdIndexSound(t[..|t| - 1], id);
    }
  }

  /** No entry of t carries this id. */
  predicate IdAbsent(t: seq<FieldSpec>, id: nat)
  {
    forall i :: 0 <= i < |t| ==> t[i].id != id
  }

  /** No entry of t carries this name. */
  predicate NameAbsent(t: seq<FieldSpec>, name: string)
  {
    forall i :: 0 <= i < |t| ==> t[i].name != name
  }

  /** Entry j of t is the only one with its id. */
  predicate IdSole(t: seq<FieldSpec>, j: nat)
  {
    j < |t| && forall i :: 0 <= i < |t| && t[i].id == t[j].id ==> i == j
  }

  /** Entry j of t is the only one with its name. */
  predicate NameSole(t: seq<FieldSpec>, j: nat)
  {
    j < |t| && forall i :: 0 <= i < |t| && t[i].name == t[j].name ==> i == j
  }

  lemma {:induction false} IdIndexComplete(t: seq<FieldSpec>, id: nat)
    ensures id in IdIndex(t) <==> exists j :: 0 <= j < |t| && t[j].id == id
  {
    if t != [] {
      IdIndexComplete(t[..|t| - 1], id);
      if id in IdIndex(t[..|t| - 1]) {
        var j :| 0 <= j < |t| - 1 && t[..|t| - 1][j].id == id;
        assert t[j].id == id;
      }
    }
  }

  lemma {:induction false} NameIndexSound(t: seq<FieldSpec>, name: string)
    requires name in NameIndex(t)
    ensures NameIndex(t)[name].name == name && NameIndex(t)[name] in t
  {
    if t != [] && t[|t| - 1].name != name {
      NameIndexSound(t[..|t| - 1], name);
    }
  }

  lemma {:induction false} NameIndexComplete(t: seq<FieldSpec>, name: string)
    ensures name in NameIndex(t) <==> exists j :: 0 <= j < |t| && t[j].name == name
  {
    if t != [] {
      NameIndexComplete(t[..|t| - 1], name);
      if name in NameIndex(t[..|t| - 1]) {
        var j :| 0 <= j < |t| - 1 && t[..|t| - 1][j].name == name;
        assert t[j].name == name;
      }
    }
  }

  /** Entries appended without a given id leave what the id index holds for it unchanged. */
  lemma {:induction false} IdIndexAppendAbsent(a: seq<FieldSpec>, b: seq<FieldSpec>, id: nat)
    requires IdAbsent(b, id)
    ensures id in IdIndex(a + b) <==> id in IdIndex(a)
    ensures id in IdIndex(a) ==> IdIndex(a + b)[id] == IdIndex(a)[id]
  {
    if b == [] {
      assert a + b == a;
    } else {
      var init := b[..|b| - 1];
      assert (a + b)[..|a + b| - 1] == a + init;
      IdIndexAppendAbsent(a, init, id);
    }
  }

  /** An entry that is the only one with its id in the appended part wins the id index, whatever came before. */
  lemma {:induction false} IdIndexAppendSole(a: seq<FieldSpec>, b: seq<FieldSpec>, j: nat)
    requires IdSole(b, j)
    ensures b[j].id in IdIndex(a + b) && IdIndex(a + b)[b[j].id] == b[j]
  {
    var init := b[..|b| - 1];
    assert (a + b)[..|a + b| - 1] == a + init;
    if j < |b| - 1 {
      IdIndexAppendSole(a, init, j);
    }
  }

  /** Entries appended without a given name leave what the name index holds for it unchanged. */
  lemma {:induction false} NameIndexAppendAbsent(a: seq<FieldSpec>, b: seq<FieldSpec>, name: string)
    requires NameAbsent(b, name)
    ensures name in NameIndex(a + b) <==> name in NameIndex(a)
    ensures name in NameIndex(a) ==> NameIndex(a + b)[name] == NameIndex(a)[name]
  {
    if b == [] {
      assert a + b == a;
    } else {
      var init := b[..|b| - 1];
      assert (a + b)[..|a + b| - 1] == a + init;
      NameIndexAppendAbsent(a, init, name);
    }
  }

  /** An entry that is the only one with its name in the appended part wins the name index, whatever came before. */
  lemma {:induction false} NameIndexAppendSole(a: seq<FieldSpec>, b: seq<FieldSpec>, j: nat)
    requires NameSole(b, j)
    ensures b[j].name in NameIndex(a + b) && NameIndex(a + b)[b[j].name] == b[j]
  {
    var init := b[..|b| - 1];
    assert (a + b)[..|a + b| - 1] == a + init;
    if j < |b| - 1 {
      NameIndexAppendSole(a, init, j);
    }
  }

  /** get always answers with an entry for the id asked about: a registered one, or FIELD_<id> of length 0. */
  lemma GetAnswersId(t: FieldTypeTable, id: nat)
    requires t.Valid()
    ensures t.Get(id).id == id
    ensures (exists j :: 0 <= j < |t.entries| && t.entries[j].id == id) ==> t.Get(id) in t.entries
    ensures (forall j :: 0 <= j < |t.entries| ==> t.entries[j].id != id) ==> t.Get(id) == FieldSpec(id, 0, UInt, UnknownName(id))
  {
    IdIndexComplete(t.entries, id);
    if id in IdIndex(t.entries) {
      IdIndexSound(t.entries, id);
    }
  }

  /** Synthetic names never collide: different unknown ids get different names. */
  lemma UnknownNamesDistinct(a: nat, b: nat)
    requires a != b
    ensures UnknownName(a) != UnknownName(b)
  {
    if UnknownName(a) == UnknownName(b) {
      assert Decimal(a) == UnknownName(a)[6..] == UnknownName(b)[6..] == Decimal(b);
      DecimalInjective(a, b);
    }
  }

  /** get_by_name answers None exactly for unregistered names, and otherwise an entry with that name. */
  lemma GetByNameSound(t: FieldTypeTable, name: string)
    requires t.Valid()
    ensures t.GetByName(name).None? <==> forall j :: 0 <= j < |t.entries| ==> t.entries[j].name != name
    ensures t.GetByName(name).Some? ==> t.GetByName(name).value.name == name && t.GetByName(name).value in t.entries
  {
    NameIndexComplete(t.entries, name);
    if name in NameIndex(t.entries) {
      NameIndexSound(t.entries, name);
    }
  }

  /** Every entry of t has an id between lo and hi. */
  predicate IdsWithin(t: seq<FieldSpec>, lo: nat, hi: nat)
  {
    forall i :: 0 <= i < |t| ==> lo <= t[i].id <= hi
  }

  // Each run covers its own id range; the NetFlow v9 ranges ascend and the vendor ranges lie above them.

  lemma V9Fields1To24Range()
    ensures IdsWithin(V9Fields1To24, 1, 24)
  {
  }

  lemma V9Fields27To50Range()
    ensures IdsWithin(V9Fields27To50, 27, 50)
  {
  }

  lemma V9Fields55To64Range()
    ensures IdsWithin(V9Fields55To64, 55, 64)
  {
  }

  lemma V9Fields70To129Range()
    ensures IdsWithin(V9Fields70To129, 70, 129)
  {
  }

  lemma NselRange()
    ensures IdsWithin(Nsel, 148, 40000)
  {
  }

  lemma NelRange()
    ensures IdsWithin(Nel, 230, 364)
  {
  }

  /** A run whose ids lie between lo and hi has no entry for an id outside that range. */
  lemma AbsentOutside(t: seq<FieldSpec>, lo: nat, hi: nat, id: nat)
    requires IdsWithin(t, lo, hi) && (id < lo || hi < id)
    ensures IdAbsent(t, id)
  {
  }

  /** An id of the NetFlow v9 range 1..129 is absent from the vendor runs. */
  lemma AbsentFromVendorRuns(id: nat)
    requires id <= 129
    ensures IdAbsent(Nsel, id) && IdAbsent(Nel, id)
  {
    NselRange();
    AbsentOutside(Nsel, 148, 40000, id);
    NelRange();
    AbsentOutside(Nel, 230, 364, id);
  }

  /** An entry of the first run that is alone with its id there: get answers exactly that entry. */
  lemma GetFromFirstRun(j: nat)
    requires IdSole(V9Fields1To24, j)
    ensures Resolve(IdIndex(Table), V9Fields1To24[j].id) == V9Fields1To24[j]
  {
    var id := V9Fields1To24[j].id;
    V9Fields1To24Range();
    assert id <= 24;
    V9Fields27To50Range();
    AbsentOutside(V9Fields27To50, 27, 50, id);
    V9Fields55To64Range();
    AbsentOutside(V9Fields55To64, 55, 64, id);
    V9Fields70To129Range();
    AbsentOutside(V9Fields70To129, 70, 129, id);
    AbsentFromVendorRuns(id);
    var a := V9Fields1To24;
    IdIndexAppendSole([], a, j);
    assert [] + a == a;
    IdIndexAppendAbsent(a, V9Fields27To50, id);
    a := a + V9Fields27To50;
    IdIndexAppendAbsent(a, V9Fields55To64, id);
    a := a + V9Fields55To64;
    IdIndexAppendAbsent(a, V9Fields70To129, id);
    a := a + V9Fields70To129;
    IdIndexAppendAbsent(a, Nsel, id);
    a := a + Nsel;
    IdIndexAppendAbsent(a, Nel, id);
  }

  /** An entry of the second run that is alone with its id there: get answers exactly that entry. */
  lemma GetFromSecondRun(j: nat)
    requires IdSole(V9Fields27To50, j)
    ensures Resolve(IdIndex(Table), V9Fields27To50[j].id) == V9Fields27To50[j]
  {
    var id := V9Fields27To50[j].id;
    V9Fields27To50Range();
    assert id <= 50;
    V9Fields55To64Range();
    AbsentOutside(V9Fields55To64, 55, 64, id);
    V9Fields70To129Range();
    AbsentOutside(V9Fields70To129, 70, 129, id);
    AbsentFromVendorRuns(id);
    var a := V9Fields1To24 + V9Fields27To50;
    IdIndexAppendSole(V9Fields1To24, V9Fields27To50, j);
    IdIndexAppendAbsent(a, V9Fields55To64, id);
    a := a + V9Fields55To64;
    IdIndexAppendAbsent(a, V9Fields70To129, id);
    a := a + V9Fields70To129;
    IdIndexAppendAbsent(a, Nsel, id);
    a := a + Nsel;
    IdIndexAppendAbsent(a, Nel, id);
  }

  /** An entry of the third run that is alone with its id there: get answers exactly that entry. */
  lemma GetFromThirdRun(j: nat)
    requires IdSole(V9Fields55To64, j)
    ensures Resolve(IdIndex(Table), V9Fields55To64[j].id) == V9Fields55To64[j]
  {
    var id := V9Fields55To64[j].id;
    V9Fields55To64Range();
    assert id <= 64;
    V9Fields70To129Range();
    AbsentOutside(V9Fields70To129, 70, 129, id);
    AbsentFromVendorRuns(id);
    var a := V9Fields1To24 + V9Fields27To50 + V9Fields55To64;
    IdIndexAppendSole(V9Fields1To24 + V9Fields27To50, V9Fields55To64, j);
    IdIndexAppendAbsent(a, V9Fields70To129, id);
    a := a + V9Fields70To129;
    IdIndexAppendAbsent(a, Nsel, id);
    a := a + Nsel;
    IdIndexAppendAbsent(a, Nel, id);
  }

  /** An entry of the NSEL run that is alone with its id there and absent from NEL: get answers exactly that entry. */
  lemma GetFromNsel(j: nat)
    requires IdSole(Nsel, j) && IdAbsent(Nel, Nsel[j].id)
    ensures Resolve(IdIndex(Table), Nsel[j].id) == Nsel[j]
  {
    var a := V9Fields1To24 + V9Fields27To50 + V9Fields55To64 + V9Fields70To129;
    IdIndexAppendSole(a, Nsel, j);
    IdIndexAppendAbsent(a + Nsel, Nel, Nsel[j].id);
  }

  /** An entry of the NEL run, the last one, that is alone with its id there: get answers exactly that entry. */
  lemma GetFromNel(j: nat)
    requires IdSole(Nel, j)
    ensures Resolve(IdIndex(Table), Nel[j].id) == Nel[j]
  {
    IdIndexAppendSole(V9Fields1To24 + V9Fields27To50 + V9Fields55To64 + V9Fields70To129 + Nsel, Nel, j);
  }

  /** The entries a NAT event template uses for the flow's protocol and destination port. */
  lemma GetFlowFields(t: FieldTypeTable)
    requires t.lookupId == IdIndex(Table)
    ensures t.Get(4) == FieldSpec(4, 1, UInt, "PROTOCOL")
    ensures t.Get(11) == FieldSpec(11, 2, UInt, "L4_DST_PORT")
  {
    GetFromFirstRun(3);
    GetFromFirstRun(10);
  }

  /** The entries a NAT event template uses for the pre-translation addresses. */
  lemma GetAddressFields(t: FieldTypeTable)
    requires t.lookupId == IdIndex(Table)
    ensures t.Get(8) == FieldSpec(8, 4, UInt, "IPV4_SRC_ADDR")
    ensures t.Get(12) == FieldSpec(12, 4, UInt, "IPV4_DST_ADDR")
  {
    GetFromFirstRun(7);
    GetFromFirstRun(11);
  }

  /** The entries a NAT event template uses for the translated source. */
  lemma GetXlateFields(t: FieldTypeTable)
    requires t.lookupId == IdIndex(Table)
    ensures t.Get(225) == FieldSpec(225, 4, UInt, "XLATE_SRC_ADDR_IPV4")
    ensures t.Get(227) == FieldSpec(227, 2, UInt, "XLATE_SRC_PORT")
  {
    GetFromNsel(5);
    GetFromNsel(7);
  }

  /** The entries a NAT event template uses for the event kind and time. */
  lemma GetEventFields(t: FieldTypeTable)
    requires t.lookupId == IdIndex(Table)
    ensures t.Get(230) == FieldSpec(230, 1, UInt, "NAT_EVENT")
    ensures t.Get(323) == FieldSpec(323, 8, UInt, "EVENT_TIME_MSEC")
  {
    GetFromNel(0);
    GetFromNsel(13);
  }

  /** SRC_MAC: a 6-byte field whose formatter is u_int, so it unpacks to six separate byte values. */
  lemma GetSrcMacField(t: FieldTypeTable)
    requires t.lookupId == IdIndex(Table)
    ensures t.Get(56) == FieldSpec(56, 6, UInt, "SRC_MAC")
  {
    GetFromThirdRun(1);
  }

  /** ICMP_TYPE is registered twice (ids 32 and 176); the later entry, id 176, wins the name lookup. */
  lemma IcmpTypeByName(t: FieldTypeTable)
    requires t.lookupName == NameIndex(Table)
    ensures t.GetByName("ICMP_TYPE") == Some(FieldSpec(176, 1, UInt, "ICMP_TYPE"))
  {
    var a := V9Fields1To24 + V9Fields27To50 + V9Fields55To64 + V9Fields70To129;
    NameIndexAppendSole(a, Nsel, 1);
    NameIndexAppendAbsent(a + Nsel, Nel, "ICMP_TYPE");
  }

  /** Both ICMP_TYPE entries are reachable by id, under the same name. */
  lemma IcmpTypeById(t: FieldTypeTable)
    requires t.lookupId == IdIndex(Table)
    ensures t.Get(32) == FieldSpec(32, 2, UInt, "ICMP_TYPE")
    ensures t.Get(176) == FieldSpec(176, 1, UInt, "ICMP_TYPE")
  {
    GetFromSecondRun(5);
    GetFromNsel(1);
  }
}
