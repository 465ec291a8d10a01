/**
 * TemplateMatcher of nf.py: compiles NetFlow v9 template records into record types and keeps them per
 * exporter and template id (the dynamic cache), plus the static templates keyed by their flow-set size.
 */
module Templates {
  import opened Wrappers
  import opened Bytes
  import opened Text
  import opened Structuple
  import opened FieldCatalog

  /** The datagram source address as the event loop hands it over: (host, port). */
  datatype Exporter = Exporter(host: string, port: nat)

  /** One (fieldType, fieldLength) pair of a template record. */
  datatype TemplateField = TemplateField(fieldType: nat, fieldLength: nat)

  /** _dyn_templates: exporter -> template id -> record type. */
  type Cache = map<Exporter, map<nat, Struct>>

  /** The field names of a template: the catalogue name of each field type, in template order. */
  function FieldNames(table: FieldTypeTable, fields: seq<TemplateField>): (names: seq<string>)
    ensures |names| == |fields|
    ensures forall i :: 0 <= i < |fields| ==> names[i] == table.Get(fields[i].fieldType).name
  {
    seq(|fields|, i requires 0 <= i < |fields| => table.Get(fields[i].fieldType).name)
  }

  /** The format items of a template: the catalogue formatter of each field type applied to the declared length. */
  function FieldCodes(table: FieldTypeTable, fields: seq<TemplateField>): (codes: seq<Code>)
    ensures |codes| == |fields|
    ensures forall i :: 0 <= i < |fields| ==> codes[i] == Format(table.Get(fields[i].fieldType).formatter, fields[i].fieldLength)
  {
    seq(|fields|, i requires 0 <= i < |fields| => Format(table.Get(fields[i].fieldType).formatter, fields[i].fieldLength))
  }

  /** The sum of the declared field lengths. */
  function TotalLength(fields: seq<TemplateField>): nat
  {
    if fields == [] then 0 else fields[0].fieldLength + TotalLength(fields[1..])
  }

  /** The record type update_teplate builds: '!' followed by one item per field, names from the catalogue. */
  function Compile(table: FieldTypeTable, fields: seq<TemplateField>): (r: Result<Struct>)
    ensures r.Ok? <==> ValidFieldNames(FieldNames(table, fields)) && DistinctNames(FieldNames(table, fields))
    ensures r.Err? ==> r.error == InvalidFieldName || r.error == DuplicateFieldName
    ensures r.Ok? ==> r.value.names == FieldNames(table, fields) && r.value.layout == Layout(Big, FieldCodes(table, fields))
  {
    Make(FieldNames(table, fields), Layout(Big, FieldCodes(table, fields)))
  }

  /** A compiled template's record size is the sum of the declared field lengths: no padding, whatever the formatter. */
  lemma {:induction false} CompiledSize(table: FieldTypeTable, fields: seq<TemplateField>)
    ensures Size(FieldCodes(table, fields)) == TotalLength(fields)
  {
    if fields != [] {
      CompiledSize(table, fields[1..]);
      assert FieldCodes(table, fields)[1..] == FieldCodes(table, fields[1..]);
      var f := table.Get(fields[0].fieldType).formatter;
      assert Width(Format(f, fields[0].fieldLength)) == fields[0].fieldLength;
    }
  }

  /** A compiled template is as long as its declared fields together, which is what a data record consumes. */
  lemma CompiledRecordSize(table: FieldTypeTable, fields: seq<TemplateField>)
    requires Compile(table, fields).Ok?
    ensures StructSize(Compile(table, fields).value) == TotalLength(fields)
  {
    CompiledSize(table, fields);
  }

  /**
   * The width expansion: a u_int field of length 1, 2, 4 or 8 becomes one integer; any other field becomes
   * as many byte values as its length, which shifts every later name onto the wrong value.
   */
  lemma CompiledShape(table: FieldTypeTable, fields: seq<TemplateField>, i: nat)
    requires i < |fields|
    ensures var c := FieldCodes(table, fields)[i];
      && Width(c) == fields[i].fieldLength
      && Arity(c) == if table.Get(fields[i].fieldType).formatter == UInt && fields[i].fieldLength in {1, 2, 4, 8} then 1
                     else fields[i].fieldLength
  {
  }

  /** _dyn_templates[addr][template_id] = t on a defaultdict(dict). */
  function Put(cache: Cache, addr: Exporter, id: nat, st: Struct): (c: Cache)
    ensures addr in c && id in c[addr] && c[addr][id] == st
  {
    cache[addr := (if addr in cache then cache[addr] else map[])[id := st]]
  }

  /** match(addr, template_id): the cached record type, or None. */
  function Lookup(cache: Cache, addr: Exporter, id: nat): Option<Struct>
  {
    if addr in cache && id in cache[addr] then Some(cache[addr][id]) else None
  }

  /** Storing a template changes the lookup of that exact (exporter, id) pair and of no other. */
  lemma LookupPut(cache: Cache, addr: Exporter, id: nat, st: Struct, addr': Exporter, id': nat)
    ensures Lookup(Put(cache, addr, id, st), addr', id') == if addr' == addr && id' == id then Some(st) else Lookup(cache, addr', id')
  {
  }

  /** Storing a template for one exporter leaves every other exporter's entry exactly as it was. */
  lemma PutOtherExporters(cache: Cache, addr: Exporter, id: nat, st: Struct, other: Exporter)
    requires other != addr
    ensures other in Put(cache, addr, id, st) <==> other in cache
    ensures other in cache ==> Put(cache, addr, id, st)[other] == cache[other]
  {
  }

  /** The base name add_static_template looks up: the part before the one ':' of 'name:len', else the whole name. */
  function StaticBaseName(name: string): string
  {
    var parts := Split(name, ':');
    if |parts| == 2 then parts[0] else name
  }

  /**
   * The format item of one static field name: the catalogue entry of the base name with its default length.
   * A 'name:len' entry never gets further than Make, which rejects the ':' in its name, so its length does not matter.
   */
  function StaticCode(table: FieldTypeTable, name: string): (r: Result<Code>)
    ensures r.Err? ==> r.error == UnknownFieldName
  {
    match table.GetByName(StaticBaseName(name))
    case None => Err(UnknownFieldName)
    case Some(spec) => Ok(Format(spec.formatter, spec.defaultLength))
  }

  /** The format items of a static template, failing at the first unknown name. */
  function StaticCodes(table: FieldTypeTable, names: seq<string>): (r: Result<seq<Code>>)
    ensures r.Ok? <==> forall i :: 0 <= i < |names| ==> StaticCode(table, names[i]).Ok?
    ensures r.Ok? ==> |r.value| == |names|
    ensures r.Err? ==> r.error == UnknownFieldName
  {
    if names == [] then Ok([])
    else match StaticCodes(table, names[..|names| - 1])
      case Err(e) => Err(e)
      case Ok(cs) =>
        match StaticCode(table, names[|names| - 1])
        case Err(e) => Err(e)
        case Ok(c) => Ok(cs + [c])
  }

  /** The record type add_static_template builds from field names. */
  function CompileStatic(table: FieldTypeTable, names: seq<string>): (r: Result<Struct>)
    ensures r.Ok? ==> StaticCodes(table, names).Ok? && r.value == Struct(names, Layout(Big, StaticCodes(table, names).value))
    ensures StaticCodes(table, names).Err? ==> r == Err(UnknownFieldName)
  {
    match StaticCodes(table, names)
    case Err(e) => Err(e)
    case Ok(codes) => Make(names, Layout(Big, codes))
  }

  /** Any 'name:len' entry makes add_static_template fail: either its base name is unknown or Make rejects the ':'. */
  lemma StaticColonFails(table: FieldTypeTable, names: seq<string>, i: nat)
    requires i < |names| && ':' in names[i]
    ensures CompileStatic(table, names).Err?
  {
  }

  /**
   * A template listing ICMP_TYPE twice (field types 32 and 176 share the name) cannot be compiled:
   * namedtuple rejects the repeated name, so update_teplate raises instead of storing it.
   */
  lemma IcmpTypeTwiceRejected(table: FieldTypeTable)
    requires table.lookupId == IdIndex(Table)
    ensures Compile(table, [TemplateField(32, 2), TemplateField(176, 1)]) == Err(DuplicateFieldName)
  {
    IcmpTypeById(table);
    var names := FieldNames(table, [TemplateField(32, 2), TemplateField(176, 1)]);
    assert names[0] == names[1] == "ICMP_TYPE";
    assert !DistinctNames(names);
    assert ValidFieldName("ICMP_TYPE");
  }

  /** The template cache of one parser. */
  class TemplateMatcher {
    /** FIELDS, the field catalogue every matcher shares. */
    const fields: FieldTypeTable
    var dyn: Cache
    var statics: map<nat, Struct>

    constructor()
      ensures fields.entries == Table && fields.Valid()
      ensures dyn == map[] && statics == map[]
    {
      fields := new FieldTypeTable(Table);
      dyn := map[];
      statics := map[];
    }

    /**
     * update_teplate(addr, template_id, records): builds the record type field by field and stores it under
     * (addr, template_id); when Make raises, nothing is stored.
     */
    method UpdateTemplate(addr: Exporter, templateId: nat, records: seq<TemplateField>) returns (r: Result<Struct>)
      modifies this
      ensures r == Compile(fields, records)
      ensures dyn == if r.Ok? then Put(old(dyn), addr, templateId, r.value) else old(dyn)
      ensures statics == old(statics)
    {
      var names: seq<string> := [];
      var codes: seq<Code> := [];
      var k := 0;
      while k < |records|
        invariant k <= |records|
        invariant names == FieldNames(fields, records[..k])
        invariant codes == FieldCodes(fields, records[..k])
      {
        var spec := fields.Get(records[k].fieldType);
        names := names + [spec.name];
        codes := codes + [Format(spec.formatter, records[k].fieldLength)];
        k := k + 1;
      }
      assert records[..k] == records;
      r := Make(names, Layout(Big, codes));
      if r.Ok? {
        dyn := Put(dyn, addr, templateId, r.value);
      }
    }

    /**
     * add_static_template(field_names): builds the record type from catalogue names and stores it keyed by
     * its size plus the 4-byte flow-set header; an unknown name or a rejected name raises and stores nothing.
     */
    method AddStaticTemplate(names: seq<string>) returns (r: Result<Struct>)
      modifies this
      ensures r == CompileStatic(fields, names)
      ensures statics == if r.Ok? then old(statics)[StructSize(r.value) + 4 := r.value] else old(statics)
      ensures dyn == old(dyn)
    {
      var codes: seq<Code> := [];
      var k := 0;
      while k < |names|
        invariant k <= |names|
        invariant StaticCodes(fields, names[..k]) == Ok(codes)
        invariant statics == old(statics) && dyn == old(dyn)
      {
        var c := StaticCode(fields, names[k]);
        assert names[..k + 1][..k] == names[..k];
        if c.Err? {
          return Err(c.error);
        }
        codes := codes + [c.value];
        k := k + 1;
      }
      assert names[..k] == names;
      r := Make(names, Layout(Big, codes));
      if r.Ok? {
        statics := statics[StructSize(r.value) + 4 := r.value];
      }
    }

    /** match(addr, template_id): consults the dynamic cache only, never the static templates. */
    function Match(addr: Exporter, templateId: nat): (r: Option<Struct>)
      reads this
      ensures r.Some? <==> addr in dyn && templateId in dyn[addr]
      ensures r.Some? ==> r.value == dyn[addr][templateId]
    {
      Lookup(dyn, addr, templateId)
    }
  }
}
