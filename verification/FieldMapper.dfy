/** Copying structs to and from database rows field by field, with registered converters. */
module FieldMapper {
  import opened Schema

  // ----- types, values and structs -----

  /** A type is known by its printed name. */
  type Type = string

  /** The content of an interface value: its dynamic type and what it holds. */
  datatype Value = Nil | Value(typ: Type, content: int)

  /** The rules of Go that reflection answers for. A conversion of values can panic. */
  datatype Language = Language(
    assignable: (Type, Type) -> bool,
    convertible: (Type, Type) -> bool,
    convert: (Value, Type) -> Option<Value>,
    isInterface: Type -> bool,
    exported: string -> bool)

  ghost predicate Sane(lang: Language) {
    forall t :: lang.assignable(t, t)
  }

  /** A field of that static type can hold the value. */
  predicate HasType(lang: Language, v: Value, t: Type) {
    if lang.isInterface(t) then v.Nil? || lang.assignable(v.typ, t) else v.Value? && v.typ == t
  }

  /** What a field of type t holds after an assignable value is stored in it. */
  function Stored(lang: Language, v: Value, t: Type): Value {
    if v.Nil? || lang.isInterface(t) then v else v.(typ := t)
  }

  datatype Field = Field(name: string, tag: string, typ: Type)

  /** The column of a field: its db tag, or its name when there is no tag. */
  function Column(f: Field): string {
    if f.tag == "" then f.name else f.tag
  }

  ghost predicate DistinctNames(fields: seq<Field>) {
    forall i, j :: 0 <= i < j < |fields| ==> fields[i].name != fields[j].name
  }

  ghost predicate DistinctColumns(fields: seq<Field>) {
    forall i, j :: 0 <= i < j < |fields| ==> Column(fields[i]) != Column(fields[j])
  }

  /** FieldByName. */
  function Find(fields: seq<Field>, name: string): (found: Option<nat>)
    ensures found.Some? ==> found.value < |fields| && fields[found.value].name == name
    ensures found.None? ==> forall i :: 0 <= i < |fields| ==> fields[i].name != name
  {
    if fields == [] then None
    else if fields[|fields| - 1].name == name then Some(|fields| - 1)
    else Find(fields[..|fields| - 1], name)
  }

  /** A struct: its type is a list of fields, which never changes, and it holds one value for each. */
  class Record {
    const fields: seq<Field>
    var values: seq<Value>

    ghost predicate Valid()
      reads this
    {
      |values| == |fields| && DistinctNames(fields)
    }

    constructor (fields: seq<Field>, values: seq<Value>)
      requires |values| == |fields| && DistinctNames(fields)
      ensures Valid() && this.fields == fields && this.values == values
    {
      this.fields := fields;
      this.values := values;
    }
  }

  /** An argument of type any. Reflection tells a struct, a pointer to one, and the rest apart. */
  datatype Argument = Struct(record: Record) | Pointer(record: Record) | Other

  // ----- the registry -----

  /** What a converter does: it may also panic, which the caller turns into an error. */
  datatype Answer = Gives(value: Value) | Fails | Panics

  type Converter = Value -> Answer

  type Registry = map<string, Converter>

  function ConverterKey(src: Type, dst: Type): string {
    src + "->" + dst
  }

  predicate NoArrow(t: Type) {
    forall i :: 0 < i < |t| ==> !(t[i - 1] == '-' && t[i] == '>')
  }

  lemma NoArrowBefore(src: Type, dst: Type, i: nat)
    requires NoArrow(src) && i < |src|
    ensures !(ConverterKey(src, dst)[i] == '-' && ConverterKey(src, dst)[i + 1] == '>')
  {
    if i + 1 < |src| {
      assert !(src[i + 1 - 1] == '-' && src[i + 1] == '>');
    }
  }

  /** Two pairs of types share a key only when they are the same pair. */
  lemma KeysAreUnambiguous(a: Type, b: Type, c: Type, d: Type)
    requires NoArrow(a) && NoArrow(c) && ConverterKey(a, b) == ConverterKey(c, d)
    ensures a == c && b == d
  {
    var key := ConverterKey(a, b);
    assert key[|a|] == '-' && key[|a| + 1] == '>' && key[|c|] == '-' && key[|c| + 1] == '>';
    if |a| < |c| {
      NoArrowBefore(c, d, |a|);
    } else if |c| < |a| {
      NoArrowBefore(a, b, |c|);
    }
    assert a == key[..|a|] && c == key[..|c|];
    assert b == key[|a| + 2..] && d == key[|c| + 2..];
  }

  /** getConverter. */
  function Lookup(reg: Registry, src: Type, dst: Type): Option<Converter> {
    if ConverterKey(src, dst) in reg then Some(reg[ConverterKey(src, dst)]) else None
  }

  /** After registering, both directions are found, and for every other pair of types what was found before. */
  lemma RegisteredIsFound(reg: Registry, r: Registration, a: Type, b: Type)
    requires NoArrow(r.db) && NoArrow(r.domain) && NoArrow(a) && r.db != r.domain
    ensures Lookup(Register(reg, r), a, b)
         == if (a, b) == (r.db, r.domain) then Some(r.toDomain)
            else if (a, b) == (r.domain, r.db) then Some(r.toDB)
            else Lookup(reg, a, b)
  {
    hide NoArrow, ConverterKey;
    if ConverterKey(a, b) == ConverterKey(r.db, r.domain) {
      KeysAreUnambiguous(a, b, r.db, r.domain);
    }
    if ConverterKey(a, b) == ConverterKey(r.domain, r.db) {
      KeysAreUnambiguous(a, b, r.domain, r.db);
    }
    if ConverterKey(r.db, r.domain) == ConverterKey(r.domain, r.db) {
      KeysAreUnambiguous(r.db, r.domain, r.domain, r.db);
    }
  }

  datatype Registration = Registration(db: Type, domain: Type, toDomain: Converter, toDB: Converter)

  function Register(reg: Registry, r: Registration): Registry {
    reg[ConverterKey(r.db, r.domain) := r.toDomain][ConverterKey(r.domain, r.db) := r.toDB]
  }

  function RegisterAll(regs: seq<Registration>): Registry {
    if regs == [] then map[] else Register(RegisterAll(regs[..|regs| - 1]), regs[|regs| - 1])
  }

  /** Whatever a holds, there yields something b can hold, and back from that the same again. */
  ghost predicate Undoes(lang: Language, a: Type, b: Type, there: Converter, back: Converter) {
    forall v :: HasType(lang, v, a) ==>
      && v.Value?
      && there(v).Gives? && there(v).value.Value? && HasType(lang, there(v).value, b)
      && back(there(v).value) == Gives(v)
  }

  ghost predicate MutuallyInverse(lang: Language, r: Registration) {
    && r.db != r.domain && NoArrow(r.db) && NoArrow(r.domain)
    && Undoes(lang, r.db, r.domain, r.toDomain, r.toDB)
    && Undoes(lang, r.domain, r.db, r.toDB, r.toDomain)
  }

  /** Registered for both directions, each undoing the other. */
  ghost predicate Paired(lang: Language, reg: Registry, a: Type, b: Type) {
    && a != b && ConverterKey(a, b) in reg && ConverterKey(b, a) in reg
    && Undoes(lang, a, b, reg[ConverterKey(a, b)], reg[ConverterKey(b, a)])
  }

  /**
   However often types are registered again, a converter that is found has its inverse registered beside it: both
   directions are always replaced together.
   */
  lemma {:induction false} ConvertersStayPaired(lang: Language, regs: seq<Registration>, a: Type, b: Type)
    requires forall r :: r in regs ==> MutuallyInverse(lang, r)
    requires NoArrow(a) && NoArrow(b) && ConverterKey(a, b) in RegisterAll(regs)
    ensures Paired(lang, RegisterAll(regs), a, b)
  {
    hide NoArrow, Undoes, ConverterKey;
    var r := regs[|regs| - 1];
    assert r in regs && MutuallyInverse(lang, r);
    if ConverterKey(a, b) == ConverterKey(r.db, r.domain) {
      KeysAreUnambiguous(a, b, r.db, r.domain);
      if ConverterKey(a, b) == ConverterKey(b, a) { KeysAreUnambiguous(a, b, b, a); }
    } else if ConverterKey(a, b) == ConverterKey(r.domain, r.db) {
      KeysAreUnambiguous(a, b, r.domain, r.db);
      if ConverterKey(a, b) == ConverterKey(b, a) { KeysAreUnambiguous(a, b, b, a); }
    } else {
      if ConverterKey(b, a) == ConverterKey(r.db, r.domain) { KeysAreUnambiguous(b, a, r.db, r.domain); }
      if ConverterKey(b, a) == ConverterKey(r.domain, r.db) { KeysAreUnambiguous(b, a, r.domain, r.db); }
      ConvertersStayPaired(lang, regs[..|regs| - 1], a, b);
    }
  }

  /** safeConvert: a panic becomes an error. */
  function SafeConvert(conv: Converter, v: Value): (r: Option<Value>)
    ensures r.Some? <==> conv(v).Gives?
  {
    match conv(v)
    case Gives(w) => Some(w)
    case Fails => None
    case Panics => None
  }

  // ----- one field -----

  /** What becomes of one field. */
  datatype Step = Put(value: Value) | Skip | Fail | Panic

  /** A field on its way from the source struct to the row. */
  function ToRow(lang: Language, reg: Registry, f: Field, fields: seq<Field>, values: seq<Value>): Step
    requires |values| == |fields|
  {
    var found := Find(fields, f.name);
    if found.None? then Skip
    else
      var src := fields[found.value].typ;
      var v := values[found.value];
      if ConverterKey(src, f.typ) in reg then
        if !lang.exported(f.name) then Panic
        else
          var w := SafeConvert(reg[ConverterKey(src, f.typ)], v);
          if w.None? then Fail
          else if w.value.Nil? then Panic
          else if lang.assignable(w.value.typ, f.typ) then Put(w.value) else Skip
      else if lang.assignable(src, f.typ) then
        if lang.exported(f.name) then Put(v) else Panic
      else if lang.convertible(src, f.typ) then
        var w := lang.convert(v, f.typ);
        if lang.exported(f.name) && w.Some? then Put(w.value) else Panic
      else Skip
  }

  /** A field on its way from the schema struct to the domain struct. */
  function FromRow(lang: Language, reg: Registry, f: Field, v: Value, fields: seq<Field>): (step: Step)
    ensures step.Put? ==> Find(fields, f.name).Some?
  {
    var found := Find(fields, f.name);
    if found.None? || !lang.exported(f.name) then Skip
    else
      var dst := fields[found.value].typ;
      if ConverterKey(f.typ, dst) in reg then
        var w := SafeConvert(reg[ConverterKey(f.typ, dst)], v);
        if w.None? then Fail
        else if w.value.Nil? then Panic
        else if lang.assignable(w.value.typ, dst) then Put(Stored(lang, w.value, dst)) else Fail
      else if lang.assignable(f.typ, dst) then Put(Stored(lang, v, dst))
      else if lang.convertible(f.typ, dst) then
        var w := lang.convert(v, dst);
        if w.Some? then Put(w.value) else Panic
      else Fail
  }

  // ----- all fields -----

  datatype Ending = Completed | Failed | Panicked

  function After(step: Step): Ending {
    match step
    case Put(_) => Completed
    case Skip => Completed
    case Fail => Failed
    case Panic => Panicked
  }

  /** The row built from the first k schema fields. */
  datatype Mapped = Mapped(row: map<string, Value>, ending: Ending)

  function MapFirst(lang: Language, reg: Registry, schema: seq<Field>, fields: seq<Field>, values: seq<Value>,
                    k: nat): Mapped
    requires |values| == |fields| && k <= |schema|
  {
    if k == 0 then Mapped(map[], Completed)
    else
      var before := MapFirst(lang, reg, schema, fields, values, k - 1);
      if before.ending != Completed then before
      else
        var step := ToRow(lang, reg, schema[k - 1], fields, values);
        Mapped(if step.Put? then before.row[Column(schema[k - 1]) := step.value] else before.row, After(step))
  }

  /** The domain struct after the first k schema fields: what was stored before a failure stays stored. */
  datatype Filled = Filled(values: seq<Value>, ending: Ending)

  function FillFirst(lang: Language, reg: Registry, schema: seq<Field>, row: seq<Value>, fields: seq<Field>,
                     values: seq<Value>, k: nat): (filled: Filled)
    requires |row| == |schema| && |values| == |fields| && k <= |schema|
    ensures |filled.values| == |fields|
  {
    if k == 0 then Filled(values, Completed)
    else
      var before := FillFirst(lang, reg, schema, row, fields, values, k - 1);
      if before.ending != Completed then before
      else
        var step := FromRow(lang, reg, schema[k - 1], row[k - 1], fields);
        var at := Find(fields, schema[k - 1].name);
        Filled(if step.Put? && at.Some? then before.values[at.value := step.value] else before.values, After(step))
  }

  lemma {:induction false} MapStops(lang: Language, reg: Registry, schema: seq<Field>, fields: seq<Field>,
                                    values: seq<Value>, k: nat, n: nat)
    requires |values| == |fields| && k <= n <= |schema|
    requires MapFirst(lang, reg, schema, fields, values, k).ending != Completed
    ensures MapFirst(lang, reg, schema, fields, values, n) == MapFirst(lang, reg, schema, fields, values, k)
  {
    if k < n {
      MapStops(lang, reg, schema, fields, values, k, n - 1);
    }
  }

  lemma {:induction false} FillStops(lang: Language, reg: Registry, schema: seq<Field>, row: seq<Value>,
                                     fields: seq<Field>, values: seq<Value>, k: nat, n: nat)
    requires |row| == |schema| && |values| == |fields| && k <= n <= |schema|
    requires FillFirst(lang, reg, schema, row, fields, values, k).ending != Completed
    ensures FillFirst(lang, reg, schema, row, fields, values, n) == FillFirst(lang, reg, schema, row, fields, values, k)
  {
    if k < n {
      FillStops(lang, reg, schema, row, fields, values, k, n - 1);
    }
  }

  // ----- the mapper -----

  class Mapper {
    const lang: Language
    var converters: Registry

    constructor (lang: Language)
      ensures this.lang == lang && converters == RegisterAll([])
    {
      this.lang := lang;
      this.converters := map[];
    }

    method RegisterBidirectionalConverter(dbType: Type, domainType: Type, dbToDomain: Converter, domainToDB: Converter)
      modifies this
      ensures converters == Register(old(converters), Registration(dbType, domainType, dbToDomain, domainToDB))
      ensures converters == old(converters)[dbType + "->" + domainType := dbToDomain]
                                           [domainType + "->" + dbType := domainToDB]
    {
      converters := converters[ConverterKey(dbType, domainType) := dbToDomain];
      converters := converters[ConverterKey(domainType, dbType) := domainToDB];
    }

    /** An error returns no row. */
    method StructToDBMap(src: Argument, dbSchema: Argument) returns (result: map<string, Value>, ending: Ending)
      requires !src.Other? ==> src.record.Valid()
      requires !dbSchema.Other? ==> dbSchema.record.Valid()
      ensures src.Other? || dbSchema.Other? ==> ending == Failed
      ensures ending != Completed ==> result == map[]
      ensures !src.Other? && !dbSchema.Other? ==>
                var schema := dbSchema.record.fields;
                var mapped := MapFirst(lang, converters, schema, src.record.fields, src.record.values, |schema|);
                ending == mapped.ending && (ending == Completed ==> result == mapped.row)
      ensures !src.Other? && !dbSchema.Other? && ending == Completed ==>
                var schema := dbSchema.record.fields;
                forall key :: key in result <==>
                  exists i :: 0 <= i < |schema|
                              && key == (if schema[i].tag != "" then schema[i].tag else schema[i].name)
                              && Mappable(lang, converters, schema[i], src.record.fields, src.record.values)
    {
      result, ending := map[], Completed;
      if dbSchema.Other? || src.Other? {
        return result, Failed;
      }
      var schema, fields, values := dbSchema.record.fields, src.record.fields, src.record.values;
      for i := 0 to |schema|
        invariant MapFirst(lang, converters, schema, fields, values, i) == Mapped(result, Completed)
      {
        var step := ToRow(lang, converters, schema[i], fields, values);
        match step {
          case Put(value) =>
            result := result[Column(schema[i]) := value];
          case Skip =>
          case Fail =>
            MapStops(lang, converters, schema, fields, values, i + 1, |schema|);
            return map[], Failed;
          case Panic =>
            MapStops(lang, converters, schema, fields, values, i + 1, |schema|);
            return map[], Panicked;
        }
      }
      RowKeys(lang, converters, schema, fields, values);
    }

    /** The domain struct must be given by pointer; it may be the struct that is read. */
    method ConvertDBToDomain(dbRecord: Argument, domainModel: Argument) returns (ending: Ending)
      requires !dbRecord.Other? ==> dbRecord.record.Valid()
      requires !domainModel.Other? ==> domainModel.record.Valid()
      modifies if domainModel.Pointer? then {domainModel.record} else {}
      ensures dbRecord.Other? || !domainModel.Pointer? ==> ending == Failed
      ensures dbRecord.Other? && domainModel.Pointer? ==> domainModel.record.values == old(domainModel.record.values)
      ensures !dbRecord.Other? && domainModel.Pointer? ==>
                var schema := dbRecord.record.fields;
                Filled(domainModel.record.values, ending)
                == FillFirst(lang, converters, schema, old(dbRecord.record.values), domainModel.record.fields,
                             old(domainModel.record.values), |schema|)
    {
      hide FromRow;
      if dbRecord.Other? || !domainModel.Pointer? {
        return Failed;
      }
      var db, domain := dbRecord.record, domainModel.record;
      var schema, fields := db.fields, domain.fields;
      ghost var row, values := db.values, domain.values;
      for i := 0 to |schema|
        invariant |db.values| == |schema| && |domain.values| == |fields|
        invariant db.values[i..] == row[i..]
        invariant FillFirst(lang, converters, schema, row, fields, values, i) == Filled(domain.values, Completed)
      {
        assert db.values[i] == db.values[i..][0] == row[i];
        var step := FromRow(lang, converters, schema[i], db.values[i], fields);
        match step {
          case Put(value) =>
            var at := Find(fields, schema[i].name);
            domain.values := domain.values[at.value := value];
          case Skip =>
          case Fail =>
            FillStops(lang, converters, schema, row, fields, values, i + 1, |schema|);
            return Failed;
          case Panic =>
            FillStops(lang, converters, schema, row, fields, values, i + 1, |schema|);
            return Panicked;
        }
        assert row[i..][1..] == row[i + 1..] && db.values[i + 1..] == row[i + 1..];
      }
      return Completed;
    }

    method ExtractDBFields(dbModel: Argument) returns (columns: seq<string>)
      requires !dbModel.Other? ==> dbModel.record.Valid()
      ensures dbModel.Other? ==> columns == []
      ensures !dbModel.Other? ==>
                var fields := dbModel.record.fields;
                |columns| == |fields|
                && forall i :: 0 <= i < |fields| ==>
                     columns[i] == if fields[i].tag != "" then fields[i].tag else fields[i].name
      ensures !dbModel.Other? ==> columns == Columns(dbModel.record.fields)
    {
      columns := [];
      if dbModel.Other? {
        return;
      }
      var fields := dbModel.record.fields;
      for i := 0 to |fields|
        invariant columns == Columns(fields[..i])
      {
        assert fields[..i + 1][..i] == fields[..i];
        columns := columns + [Column(fields[i])];
      }
      assert fields[..|fields|] == fields;
    }
  }

  function Columns(fields: seq<Field>): (columns: seq<string>)
    ensures |columns| == |fields| && forall i :: 0 <= i < |fields| ==> columns[i] == Column(fields[i])
  {
    if fields == [] then [] else Columns(fields[..|fields| - 1]) + [Column(fields[|fields| - 1])]
  }

  // ----- what the loops amount to -----

  /** The row is completed exactly when no field fails. */
  lemma {:induction false} RowCompletes(lang: Language, reg: Registry, schema: seq<Field>, fields: seq<Field>,
                                        values: seq<Value>, k: nat)
    requires |values| == |fields| && k <= |schema|
    ensures MapFirst(lang, reg, schema, fields, values, k).ending == Completed
       <==> forall i :: 0 <= i < k ==> After(ToRow(lang, reg, schema[i], fields, values)) == Completed
  {
    hide ToRow, Column;
    if k > 0 {
      RowCompletes(lang, reg, schema, fields, values, k - 1);
    }
  }

  /** Of the first k schema fields, the row has the columns of exactly those that are put, each with its value. */
  ghost predicate RowHas(lang: Language, reg: Registry, schema: seq<Field>, fields: seq<Field>, values: seq<Value>,
                         k: nat, row: map<string, Value>)
    requires |values| == |fields| && k <= |schema|
  {
    && (forall i :: 0 <= i < k ==>
          match ToRow(lang, reg, schema[i], fields, values)
          case Put(value) => Column(schema[i]) in row && row[Column(schema[i])] == value
          case _ => Column(schema[i]) !in row)
    && (forall key :: key in row ==> exists i :: 0 <= i < k && key == Column(schema[i]))
  }

  lemma {:induction false} RowOfSteps(lang: Language, reg: Registry, schema: seq<Field>, fields: seq<Field>,
                                      values: seq<Value>, k: nat)
    requires |values| == |fields| && k <= |schema| && DistinctColumns(schema)
    ensures var mapped := MapFirst(lang, reg, schema, fields, values, k);
            mapped.ending == Completed ==> RowHas(lang, reg, schema, fields, values, k, mapped.row)
  {
    hide ToRow, Column;
    if k > 0 && MapFirst(lang, reg, schema, fields, values, k).ending == Completed {
      RowOfSteps(lang, reg, schema, fields, values, k - 1);
      RowGrows(lang, reg, schema, fields, values, k, MapFirst(lang, reg, schema, fields, values, k - 1).row);
    }
  }

  lemma RowGrows(lang: Language, reg: Registry, schema: seq<Field>, fields: seq<Field>, values: seq<Value>, k: nat,
                 row: map<string, Value>)
    requires |values| == |fields| && 0 < k <= |schema| && DistinctColumns(schema)
    requires RowHas(lang, reg, schema, fields, values, k - 1, row)
    ensures var step := ToRow(lang, reg, schema[k - 1], fields, values);
            RowHas(lang, reg, schema, fields, values, k,
                   if step.Put? then row[Column(schema[k - 1]) := step.value] else row)
  {
    hide ToRow, Column;
    forall i | 0 <= i < k - 1 ensures Column(schema[i]) != Column(schema[k - 1]) {
    }
    var step := ToRow(lang, reg, schema[k - 1], fields, values);
    var row' := if step.Put? then row[Column(schema[k - 1]) := step.value] else row;
    forall key | key in row' ensures exists i :: 0 <= i < k && key == Column(schema[i]) {
      if key != Column(schema[k - 1]) || !step.Put? {
        var i :| 0 <= i < k - 1 && key == Column(schema[i]);
      }
    }
  }

  /** Filling completes exactly when no field fails. */
  lemma {:induction false} StructCompletes(lang: Language, reg: Registry, schema: seq<Field>, row: seq<Value>,
                                           fields: seq<Field>, values: seq<Value>, k: nat)
    requires |row| == |schema| && |values| == |fields| && k <= |schema|
    ensures FillFirst(lang, reg, schema, row, fields, values, k).ending == Completed
       <==> forall i :: 0 <= i < k ==> After(FromRow(lang, reg, schema[i], row[i], fields)) == Completed
  {
    hide FromRow;
    if k > 0 {
      StructCompletes(lang, reg, schema, row, fields, values, k - 1);
    }
  }

  /** After the first k schema fields, field d holds what the one of its name put there, or what it held before. */
  ghost predicate FieldHas(lang: Language, reg: Registry, schema: seq<Field>, row: seq<Value>, fields: seq<Field>,
                           values: seq<Value>, k: nat, d: nat, after: Value)
    requires |row| == |schema| && |values| == |fields| && k <= |schema| && d < |fields|
  {
    && (forall i :: 0 <= i < k && schema[i].name == fields[d].name ==>
          match FromRow(lang, reg, schema[i], row[i], fields)
          case Put(value) => after == value
          case _ => after == values[d])
    && ((forall i :: 0 <= i < k ==> schema[i].name != fields[d].name) ==> after == values[d])
  }

  lemma FoundAt(fields: seq<Field>, d: nat)
    requires DistinctNames(fields) && d < |fields|
    ensures Find(fields, fields[d].name) == Some(d)
  {
  }

  /** A filling that completes stores the fields that are put and touches no other. */
  lemma {:induction false} StructOfSteps(lang: Language, reg: Registry, schema: seq<Field>, row: seq<Value>,
                                         fields: seq<Field>, values: seq<Value>, k: nat, d: nat)
    requires |row| == |schema| && |values| == |fields| && k <= |schema| && d < |fields|
    requires DistinctNames(schema) && DistinctNames(fields)
    requires FillFirst(lang, reg, schema, row, fields, values, k).ending == Completed
    ensures FieldHas(lang, reg, schema, row, fields, values, k, d,
                     FillFirst(lang, reg, schema, row, fields, values, k).values[d])
  {
    hide FromRow, Find;
    if k > 0 {
      StructOfSteps(lang, reg, schema, row, fields, values, k - 1, d);
      FoundAt(fields, d);
      if schema[k - 1].name == fields[d].name {
        assert forall i :: 0 <= i < k - 1 ==> schema[i].name != schema[k - 1].name;
      }
    }
  }

  // ----- there and back -----

  /** The domain struct has this field under the same name, exported, and the two types can be carried both ways. */
  ghost predicate Carried(lang: Language, reg: Registry, f: Field, fields: seq<Field>) {
    exists d :: 0 <= d < |fields| && fields[d].name == f.name && lang.exported(f.name)
      && (if fields[d].typ == f.typ then ConverterKey(f.typ, f.typ) !in reg
          else Paired(lang, reg, fields[d].typ, f.typ))
  }

  ghost predicate WellTyped(lang: Language, fields: seq<Field>, values: seq<Value>) {
    |values| == |fields| && forall d :: 0 <= d < |fields| ==> HasType(lang, values[d], fields[d].typ)
  }

  /** The schema struct filled from the row by column. */
  ghost predicate FilledFrom(lang: Language, schema: seq<Field>, row: map<string, Value>, held: seq<Value>) {
    |held| == |schema| && forall i :: 0 <= i < |schema| ==>
      Column(schema[i]) in row && held[i] == Stored(lang, row[Column(schema[i])], schema[i].typ)
  }

  /** A field that is carried is put in the row, and what the schema struct then holds brings it back. */
  lemma FieldRoundTrip(lang: Language, reg: Registry, f: Field, fields: seq<Field>, values: seq<Value>, d: nat)
    requires Sane(lang) && WellTyped(lang, fields, values) && DistinctNames(fields)
    requires Carried(lang, reg, f, fields) && d < |fields| && fields[d].name == f.name
    ensures var there := ToRow(lang, reg, f, fields, values);
            && there.Put?
            && FromRow(lang, reg, f, Stored(lang, there.value, f.typ), fields) == Put(values[d])
  {
    hide ConverterKey;
    assert Find(fields, f.name) == Some(d);
    assert lang.assignable(f.typ, f.typ);
    assert HasType(lang, values[d], fields[d].typ);
    if fields[d].typ != f.typ {
      assert Paired(lang, reg, fields[d].typ, f.typ);
      assert lang.assignable(fields[d].typ, fields[d].typ);
    }
  }

  /** The way there: the row has exactly the schema's columns, each with what its field step gives. */
  lemma CarriedRow(lang: Language, reg: Registry, schema: seq<Field>, fields: seq<Field>, values: seq<Value>)
    requires Sane(lang) && WellTyped(lang, fields, values) && DistinctNames(fields) && DistinctColumns(schema)
    requires forall i :: 0 <= i < |schema| ==> Carried(lang, reg, schema[i], fields)
    ensures var mapped := MapFirst(lang, reg, schema, fields, values, |schema|);
            && mapped.ending == Completed
            && RowHas(lang, reg, schema, fields, values, |schema|, mapped.row)
            && forall key :: key in mapped.row <==> key in Columns(schema)
  {
    hide ToRow, FromRow, Carried, DistinctColumns, Column, HasType, Stored;
    RowCompletes(lang, reg, schema, fields, values, |schema|);
    RowOfSteps(lang, reg, schema, fields, values, |schema|);
    forall i | 0 <= i < |schema| ensures ToRow(lang, reg, schema[i], fields, values).Put? {
      var d := CarriedAt(lang, reg, schema[i], fields);
      FieldRoundTrip(lang, reg, schema[i], fields, values, d);
    }
    var row := MapFirst(lang, reg, schema, fields, values, |schema|).row;
    forall key ensures key in row <==> key in Columns(schema) {
      if key in Columns(schema) {
        var i :| 0 <= i < |schema| && Columns(schema)[i] == key;
      }
      if key in row {
        var i :| 0 <= i < |schema| && key == Column(schema[i]);
        assert Columns(schema)[i] == key;
      }
    }
  }

  /** The way back: from a schema struct filled from that row, every field the schema names is restored. */
  lemma CarriedBack(lang: Language, reg: Registry, schema: seq<Field>, fields: seq<Field>, values: seq<Value>,
                    row: map<string, Value>, held: seq<Value>, target: seq<Value>)
    requires Sane(lang) && WellTyped(lang, fields, values) && |target| == |fields|
    requires DistinctNames(fields) && DistinctNames(schema)
    requires forall i :: 0 <= i < |schema| ==> Carried(lang, reg, schema[i], fields)
    requires RowHas(lang, reg, schema, fields, values, |schema|, row) && FilledFrom(lang, schema, row, held)
    ensures var filled := FillFirst(lang, reg, schema, held, fields, target, |schema|);
            && filled.ending == Completed
            && forall d :: 0 <= d < |fields| ==>
                 filled.values[d] == if Find(schema, fields[d].name).Some? then values[d] else target[d]
  {
    hide ToRow, FromRow, Carried, Column, HasType, Stored;
    forall i | 0 <= i < |schema| ensures After(FromRow(lang, reg, schema[i], held[i], fields)) == Completed {
      var d := CarriedAt(lang, reg, schema[i], fields);
      FieldRoundTrip(lang, reg, schema[i], fields, values, d);
    }
    StructCompletes(lang, reg, schema, held, fields, target, |schema|);
    forall d | 0 <= d < |fields|
      ensures FillFirst(lang, reg, schema, held, fields, target, |schema|).values[d]
           == if Find(schema, fields[d].name).Some? then values[d] else target[d]
    {
      StructOfSteps(lang, reg, schema, held, fields, target, |schema|, d);
      var found := Find(schema, fields[d].name);
      if found.Some? {
        FieldRoundTrip(lang, reg, schema[found.value], fields, values, d);
      }
    }
  }

  /**
   Writing a struct to a row and reading it back: the row has exactly the schema's columns, the schema struct can be
   filled from it, and from there every field the schema names is restored in a struct of the same type while all
   other fields keep what they held.
   */
  lemma RoundTrip(lang: Language, reg: Registry, schema: seq<Field>, fields: seq<Field>, values: seq<Value>,
                  held: seq<Value>, target: seq<Value>)
    requires Sane(lang) && WellTyped(lang, fields, values) && |target| == |fields|
    requires DistinctNames(fields) && DistinctNames(schema) && DistinctColumns(schema)
    requires forall i :: 0 <= i < |schema| ==> Carried(lang, reg, schema[i], fields)
    ensures var mapped := MapFirst(lang, reg, schema, fields, values, |schema|);
            && mapped.ending == Completed
            && (forall key :: key in mapped.row <==> key in Columns(schema))
            && (FilledFrom(lang, schema, mapped.row, held) ==>
                  var filled := FillFirst(lang, reg, schema, held, fields, target, |schema|);
                  && filled.ending == Completed
                  && forall d :: 0 <= d < |fields| ==>
                       filled.values[d] == if Find(schema, fields[d].name).Some? then values[d] else target[d])
  {
    hide DistinctColumns, DistinctNames, Carried, RowHas, Columns, MapFirst, FillFirst, HasType, Column, Stored;
    CarriedRow(lang, reg, schema, fields, values);
    var row := MapFirst(lang, reg, schema, fields, values, |schema|).row;
    if FilledFrom(lang, schema, row, held) {
      CarriedBack(lang, reg, schema, fields, values, row, held, target);
    }
  }

  lemma CarriedAt(lang: Language, reg: Registry, f: Field, fields: seq<Field>) returns (d: nat)
    requires Carried(lang, reg, f, fields)
    ensures d < |fields| && fields[d].name == f.name
  {
    d :| 0 <= d < |fields| && fields[d].name == f.name && lang.exported(f.name)
      && (if fields[d].typ == f.typ then ConverterKey(f.typ, f.typ) !in reg
          else Paired(lang, reg, fields[d].typ, f.typ));
  }

  /**
   The source has the field, exported, and its value can be brought to the schema's type: by the registered converter,
   which decides alone once there is one, or because Go assigns or converts it.
   */
  ghost predicate Mappable(lang: Language, reg: Registry, f: Field, fields: seq<Field>, values: seq<Value>)
    requires |values| == |fields|
  {
    exists d :: 0 <= d < |fields| && fields[d].name == f.name && lang.exported(f.name)
      && (var src, v := fields[d].typ, values[d];
          if ConverterKey(src, f.typ) in reg then
            var answer := reg[ConverterKey(src, f.typ)](v);
            answer.Gives? && answer.value.Value? && lang.assignable(answer.value.typ, f.typ)
          else
            lang.assignable(src, f.typ) || (lang.convertible(src, f.typ) && lang.convert(v, f.typ).Some?))
  }

  lemma PutIffMappable(lang: Language, reg: Registry, f: Field, fields: seq<Field>, values: seq<Value>)
    requires |values| == |fields| && DistinctNames(fields)
    ensures ToRow(lang, reg, f, fields, values).Put? <==> Mappable(lang, reg, f, fields, values)
  {
    hide ConverterKey;
    var found := Find(fields, f.name);
    if Mappable(lang, reg, f, fields, values) {
      assert found.Some?;
    }
  }

  /** The keys of a completed row, whether or not columns are distinct. */
  lemma RowKeys(lang: Language, reg: Registry, schema: seq<Field>, fields: seq<Field>, values: seq<Value>)
    requires |values| == |fields| && DistinctNames(fields)
    ensures var mapped := MapFirst(lang, reg, schema, fields, values, |schema|);
            mapped.ending == Completed ==>
              forall key :: key in mapped.row <==>
                exists i :: 0 <= i < |schema| && key == (if schema[i].tag != "" then schema[i].tag else schema[i].name)
                            && Mappable(lang, reg, schema[i], fields, values)
  {
    hide ToRow, Mappable, DistinctNames;
    forall i | 0 <= i < |schema|
      ensures ToRow(lang, reg, schema[i], fields, values).Put? <==> Mappable(lang, reg, schema[i], fields, values)
    {
      PutIffMappable(lang, reg, schema[i], fields, values);
    }
    KeysOfPut(lang, reg, schema, fields, values, |schema|);
  }

  ghost predicate PutUnder(lang: Language, reg: Registry, schema: seq<Field>, fields: seq<Field>, values: seq<Value>,
                           k: nat, key: string)
    requires |values| == |fields| && k <= |schema|
  {
    exists i :: 0 <= i < k && key == Column(schema[i]) && ToRow(lang, reg, schema[i], fields, values).Put?
  }

  lemma PutUnderStep(lang: Language, reg: Registry, schema: seq<Field>, fields: seq<Field>, values: seq<Value>,
                     k: nat, key: string)
    requires |values| == |fields| && 0 < k <= |schema|
    ensures PutUnder(lang, reg, schema, fields, values, k, key) <==>
            PutUnder(lang, reg, schema, fields, values, k - 1, key)
            || (key == Column(schema[k - 1]) && ToRow(lang, reg, schema[k - 1], fields, values).Put?)
  {
    hide ToRow, Column;
  }

  lemma {:induction false} KeysOfPut(lang: Language, reg: Registry, schema: seq<Field>, fields: seq<Field>,
                                     values: seq<Value>, k: nat)
    requires |values| == |fields| && k <= |schema|
    ensures var mapped := MapFirst(lang, reg, schema, fields, values, k);
            mapped.ending == Completed ==>
              forall key :: key in mapped.row <==> PutUnder(lang, reg, schema, fields, values, k, key)
  {
    hide ToRow, Column;
    if k == 0 {
      return;
    }
    hide PutUnder;
    KeysOfPut(lang, reg, schema, fields, values, k - 1);
    forall key
      ensures PutUnder(lang, reg, schema, fields, values, k, key) <==>
              PutUnder(lang, reg, schema, fields, values, k - 1, key)
              || (key == Column(schema[k - 1]) && ToRow(lang, reg, schema[k - 1], fields, values).Put?)
    {
      PutUnderStep(lang, reg, schema, fields, values, k, key);
    }
  }

  /** The row is completed with exactly the columns ExtractDBFields lists if and only if every field can be mapped. */
  lemma RowHasAllColumnsIff(lang: Language, reg: Registry, schema: seq<Field>, fields: seq<Field>, values: seq<Value>)
    requires |values| == |fields| && DistinctNames(fields) && DistinctColumns(schema)
    ensures var mapped := MapFirst(lang, reg, schema, fields, values, |schema|);
            (mapped.ending == Completed && forall key :: key in mapped.row <==> key in Columns(schema))
            <==> (forall i :: 0 <= i < |schema| ==> Mappable(lang, reg, schema[i], fields, values))
  {
    hide ToRow, Column, DistinctColumns, DistinctNames, Mappable;
    RowCompletes(lang, reg, schema, fields, values, |schema|);
    RowOfSteps(lang, reg, schema, fields, values, |schema|);
    forall i | 0 <= i < |schema|
      ensures Column(schema[i]) in Columns(schema)
      ensures ToRow(lang, reg, schema[i], fields, values).Put? <==> Mappable(lang, reg, schema[i], fields, values)
    {
      assert Columns(schema)[i] == Column(schema[i]);
      PutIffMappable(lang, reg, schema[i], fields, values);
    }
    forall key | key in Columns(schema) ensures exists i :: 0 <= i < |schema| && key == Column(schema[i]) {
      var i :| 0 <= i < |schema| && Columns(schema)[i] == key;
    }
  }

  /**
   A field that is lost: its converter gives a number where the schema wants a text. The row is completed without the
   column and nothing is reported, while the same step on the way back is an error.
   */
  lemma FieldIsDropped()
    ensures var same := (a: Type, b: Type) => a == b;
            var lang := Language(same, same, (v: Value, t: Type) => Some(v), t => false, n => true);
            var number: Converter := v => Gives(Value("number", 0));
            var reg := Register(map[], Registration("text", "time", number, number));
            var text, time := Field("At", "at", "text"), Field("At", "", "time");
            && MapFirst(lang, reg, [text], [time], [Value("time", 7)], 1) == Mapped(map[], Completed)
            && Columns([text]) == ["at"]
            && FromRow(lang, reg, text, Value("text", 7), [time]) == Fail
  {
    var number: Converter := v => Gives(Value("number", 0));
    var reg := Register(map[], Registration("text", "time", number, number));
    var text, time := Field("At", "at", "text"), Field("At", "", "time");
    assert Find([time], "At") == Some(0);
    assert ConverterKey("time", "text") in reg && ConverterKey("text", "time") in reg;
    assert ConverterKey("time", "text")[0] == 't' && ConverterKey("time", "text")[1] == 'i'
      && ConverterKey("text", "time")[1] == 'e';
    assert Columns([text]) == Columns([]) + ["at"];
  }

  // ----- field by field -----

  /** What the row holds of a field whose source has this type and value: nothing, or the value brought to its type. */
  ghost predicate RowHolds(lang: Language, reg: Registry, f: Field, src: Type, v: Value, row: map<string, Value>) {
    var key, column := src + "->" + f.typ, if f.tag != "" then f.tag else f.name;
    if key in reg then
      && reg[key](v).Gives? && reg[key](v).value.Value?
      && (if lang.assignable(reg[key](v).value.typ, f.typ) then column in row && row[column] == reg[key](v).value
          else column !in row)
    else if lang.assignable(src, f.typ) then column in row && row[column] == v
    else if lang.convertible(src, f.typ) then
      lang.convert(v, f.typ).Some? && column in row && row[column] == lang.convert(v, f.typ).value
    else column !in row
  }

  /** A completed row, field by field: unknown fields are skipped, the others are as converter and types say. */
  lemma RowFieldByField(lang: Language, reg: Registry, schema: seq<Field>, fields: seq<Field>, values: seq<Value>,
                        i: nat)
    requires |values| == |fields| && DistinctNames(fields) && DistinctColumns(schema) && i < |schema|
    requires MapFirst(lang, reg, schema, fields, values, |schema|).ending == Completed
    ensures var row := MapFirst(lang, reg, schema, fields, values, |schema|).row;
            && (forall d :: 0 <= d < |fields| && fields[d].name == schema[i].name ==>
                  RowHolds(lang, reg, schema[i], fields[d].typ, values[d], row))
            && ((forall d :: 0 <= d < |fields| ==> fields[d].name != schema[i].name) ==>
                  (if schema[i].tag != "" then schema[i].tag else schema[i].name) !in row)
  {
    hide MapFirst, DistinctColumns;
    RowCompletes(lang, reg, schema, fields, values, |schema|);
    RowOfSteps(lang, reg, schema, fields, values, |schema|);
    var row := MapFirst(lang, reg, schema, fields, values, |schema|).row;
    assert After(ToRow(lang, reg, schema[i], fields, values)) == Completed;
    forall d | 0 <= d < |fields| && fields[d].name == schema[i].name
      ensures RowHolds(lang, reg, schema[i], fields[d].typ, values[d], row)
    {
      assert Find(fields, schema[i].name) == Some(d);
    }
  }

  /** A field stops the mapping with an error: its converter reports one or panics. */
  ghost predicate FailsToRow(lang: Language, reg: Registry, f: Field, fields: seq<Field>, values: seq<Value>)
    requires |values| == |fields|
  {
    exists d :: 0 <= d < |fields| && fields[d].name == f.name && lang.exported(f.name)
      && fields[d].typ + "->" + f.typ in reg && !reg[fields[d].typ + "->" + f.typ](values[d]).Gives?
  }

  lemma FailIffConverterFails(lang: Language, reg: Registry, f: Field, fields: seq<Field>, values: seq<Value>)
    requires |values| == |fields| && DistinctNames(fields)
    ensures ToRow(lang, reg, f, fields, values).Fail? <==> FailsToRow(lang, reg, f, fields, values)
  {
    var found := Find(fields, f.name);
    if FailsToRow(lang, reg, f, fields, values) {
      assert found.Some?;
    }
  }

  lemma {:induction false} MapFailsAt(lang: Language, reg: Registry, schema: seq<Field>, fields: seq<Field>,
                                      values: seq<Value>, k: nat)
    requires |values| == |fields| && k <= |schema|
    ensures MapFirst(lang, reg, schema, fields, values, k).ending == Failed <==>
            exists i :: 0 <= i < k && ToRow(lang, reg, schema[i], fields, values).Fail?
                        && MapFirst(lang, reg, schema, fields, values, i).ending == Completed
  {
    hide ToRow, Column;
    if k > 0 {
      MapFailsAt(lang, reg, schema, fields, values, k - 1);
    }
  }

  /** The mapping fails exactly when a converter fails on a field before which all fields went through. */
  lemma MappingFailsIff(lang: Language, reg: Registry, schema: seq<Field>, fields: seq<Field>, values: seq<Value>)
    requires |values| == |fields| && DistinctNames(fields)
    ensures MapFirst(lang, reg, schema, fields, values, |schema|).ending == Failed <==>
            exists i :: 0 <= i < |schema| && FailsToRow(lang, reg, schema[i], fields, values)
                        && MapFirst(lang, reg, schema, fields, values, i).ending == Completed
  {
    hide ToRow, FailsToRow, MapFirst, DistinctNames;
    MapFailsAt(lang, reg, schema, fields, values, |schema|);
    forall i | 0 <= i < |schema|
      ensures ToRow(lang, reg, schema[i], fields, values).Fail? <==> FailsToRow(lang, reg, schema[i], fields, values)
    {
      FailIffConverterFails(lang, reg, schema[i], fields, values);
    }
  }

  /** What a field of the domain struct holds afterwards, if the schema field of its name had this type and value. */
  ghost predicate FieldHolds(lang: Language, reg: Registry, src: Type, v: Value, f: Field, before: Value,
                             after: Value) {
    var key := src + "->" + f.typ;
    if !lang.exported(f.name) then after == before
    else if key in reg then
      && reg[key](v).Gives? && reg[key](v).value.Value? && lang.assignable(reg[key](v).value.typ, f.typ)
      && after == (if lang.isInterface(f.typ) then reg[key](v).value else Value(f.typ, reg[key](v).value.content))
    else if lang.assignable(src, f.typ) then
      after == if v.Nil? || lang.isInterface(f.typ) then v else Value(f.typ, v.content)
    else lang.convertible(src, f.typ) && lang.convert(v, f.typ) == Some(after)
  }

  /** A completed struct, field by field; fields the schema does not name keep what they held. */
  lemma StructFieldByField(lang: Language, reg: Registry, schema: seq<Field>, row: seq<Value>, fields: seq<Field>,
                           values: seq<Value>, d: nat)
    requires |row| == |schema| && |values| == |fields| && DistinctNames(schema) && DistinctNames(fields) && d < |fields|
    requires FillFirst(lang, reg, schema, row, fields, values, |schema|).ending == Completed
    ensures var after := FillFirst(lang, reg, schema, row, fields, values, |schema|).values[d];
            && (forall i :: 0 <= i < |schema| && schema[i].name == fields[d].name ==>
                  FieldHolds(lang, reg, schema[i].typ, row[i], fields[d], values[d], after))
            && ((forall i :: 0 <= i < |schema| ==> schema[i].name != fields[d].name) ==> after == values[d])
  {
    hide FillFirst;
    StructCompletes(lang, reg, schema, row, fields, values, |schema|);
    StructOfSteps(lang, reg, schema, row, fields, values, |schema|, d);
    forall i | 0 <= i < |schema| && schema[i].name == fields[d].name
      ensures FieldHolds(lang, reg, schema[i].typ, row[i], fields[d], values[d],
                         FillFirst(lang, reg, schema, row, fields, values, |schema|).values[d])
    {
      assert Find(fields, schema[i].name) == Some(d);
      assert After(FromRow(lang, reg, schema[i], row[i], fields)) == Completed;
    }
  }

  /**
   A field stops the filling with an error: its converter reports one, panics or gives a value of another type, or
   there is no converter and Go can neither assign nor convert.
   */
  ghost predicate FailsFromRow(lang: Language, reg: Registry, f: Field, v: Value, fields: seq<Field>) {
    exists d :: 0 <= d < |fields| && fields[d].name == f.name && lang.exported(f.name)
      && (var key := f.typ + "->" + fields[d].typ;
          if key in reg then
            !reg[key](v).Gives? || (reg[key](v).value.Value? && !lang.assignable(reg[key](v).value.typ, fields[d].typ))
          else !lang.assignable(f.typ, fields[d].typ) && !lang.convertible(f.typ, fields[d].typ))
  }

  lemma FailIffCannotFill(lang: Language, reg: Registry, f: Field, v: Value, fields: seq<Field>)
    requires DistinctNames(fields)
    ensures FromRow(lang, reg, f, v, fields).Fail? <==> FailsFromRow(lang, reg, f, v, fields)
  {
    var found := Find(fields, f.name);
    if FailsFromRow(lang, reg, f, v, fields) {
      assert found.Some?;
    }
  }

  lemma {:induction false} FillFailsAt(lang: Language, reg: Registry, schema: seq<Field>, row: seq<Value>,
                                       fields: seq<Field>, values: seq<Value>, k: nat)
    requires |row| == |schema| && |values| == |fields| && k <= |schema|
    ensures FillFirst(lang, reg, schema, row, fields, values, k).ending == Failed <==>
            exists i :: 0 <= i < k && FromRow(lang, reg, schema[i], row[i], fields).Fail?
                        && FillFirst(lang, reg, schema, row, fields, values, i).ending == Completed
  {
    hide FromRow;
    if k > 0 {
      FillFailsAt(lang, reg, schema, row, fields, values, k - 1);
    }
  }

  /** A filling that stops, with an error or a panic, leaves what was stored by the fields that went through before. */
  lemma {:induction false} StoppedKeepsEarlier(lang: Language, reg: Registry, schema: seq<Field>, row: seq<Value>,
                                               fields: seq<Field>, values: seq<Value>, k: nat)
    requires |row| == |schema| && |values| == |fields| && k <= |schema|
    requires FillFirst(lang, reg, schema, row, fields, values, k).ending != Completed
    ensures exists i :: 0 <= i < k
              && FillFirst(lang, reg, schema, row, fields, values, i).ending == Completed
              && After(FromRow(lang, reg, schema[i], row[i], fields)) != Completed
              && FillFirst(lang, reg, schema, row, fields, values, k).values
                 == FillFirst(lang, reg, schema, row, fields, values, i).values
  {
    hide FromRow;
    if FillFirst(lang, reg, schema, row, fields, values, k - 1).ending != Completed {
      StoppedKeepsEarlier(lang, reg, schema, row, fields, values, k - 1);
    }
  }

  /** The filling fails exactly when a field cannot be filled before which all fields went through. */
  lemma FillingFailsIff(lang: Language, reg: Registry, schema: seq<Field>, row: seq<Value>, fields: seq<Field>,
                        values: seq<Value>)
    requires |row| == |schema| && |values| == |fields| && DistinctNames(fields)
    ensures FillFirst(lang, reg, schema, row, fields, values, |schema|).ending == Failed <==>
            exists i :: 0 <= i < |schema| && FailsFromRow(lang, reg, schema[i], row[i], fields)
                        && FillFirst(lang, reg, schema, row, fields, values, i).ending == Completed
  {
    hide FromRow, FailsFromRow, FillFirst, DistinctNames;
    FillFailsAt(lang, reg, schema, row, fields, values, |schema|);
    forall i | 0 <= i < |schema|
      ensures FromRow(lang, reg, schema[i], row[i], fields).Fail?
         <==> FailsFromRow(lang, reg, schema[i], row[i], fields)
    {
      FailIffCannotFill(lang, reg, schema[i], row[i], fields);
    }
  }
}
