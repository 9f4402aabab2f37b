/**
 * The encoder registry: resolves a runtime class, or a value by its class, to an
 * encoder along a fixed first-match chain, over a table that `Register` updates.
 */
module Encoders {
  import opened Wrappers

  /** A class is identified by its fully qualified name. */
  type ClassName = string

  /**
   * A runtime class: its name, whether it is an array class, and the names of
   * every interface and class it can be assigned to (its supertypes).
   */
  datatype ClassDesc = ClassDesc(name: ClassName, isArray: bool, supertypes: set<ClassName>)

  const IterableName: ClassName := "java.lang.Iterable"
  const MapName: ClassName := "java.util.Map"
  const ObjectName: ClassName := "java.lang.Object"
  const CodeWithScopeName: ClassName := "org.bson.types.CodeWithScope"
  const DBRefName: ClassName := "org.mongodb.DBRef"
  const DocumentName: ClassName := "org.mongodb.Document"

  /** `Iterable.class.isAssignableFrom(c)`. */
  predicate IsIterable(c: ClassDesc) {
    c.name == IterableName || IterableName in c.supertypes
  }

  /** `Map.class.isAssignableFrom(c)`. */
  predicate IsMap(c: ClassDesc) {
    c.name == MapName || MapName in c.supertypes
  }

  /** Encoders, by identity: the built-in ones and any registered by a caller. */
  datatype Encoder =
    | PrimitiveCodecs
    | ArrayCodec
    | NullCodec
    | CodeWithScopeCodec
    | IterableCodec
    | DBRefEncoder
    | DocumentCodec
    | MapCodec
    | Custom(id: nat)

  /**
   * The class-to-encoder table. A key may hold None: `register` stores a null
   * encoder as it is given.
   */
  type Table = map<ClassName, Option<Encoder>>

  /** `HashMap.get`: None both for a missing key and for a key holding null. */
  function Lookup(table: Table, name: ClassName): Option<Encoder> {
    if name in table then table[name] else None
  }

  /** The table the constructor installs: five entries and no entry for Object. */
  function DefaultTable(): (t: Table)
    ensures t.Keys == {CodeWithScopeName, IterableName, DBRefName, DocumentName, MapName}
    ensures ObjectName !in t
    ensures forall k :: k in t ==> t[k].Some?
    ensures t[IterableName] == Some(IterableCodec) && t[MapName] == Some(MapCodec)
  {
    map[CodeWithScopeName := Some(CodeWithScopeCodec),
        IterableName := Some(IterableCodec),
        DBRefName := Some(DBRefEncoder),
        DocumentName := Some(DocumentCodec),
        MapName := Some(MapCodec)]
  }

  /** The structural fallback: the Iterable entry first, then the Map entry. */
  function EncoderForCollection(table: Table, c: ClassDesc): (r: Option<Encoder>)
    ensures r.Some? ==> IsIterable(c) || IsMap(c)
    ensures r.Some? ==> Some(r.value) in table.Values
    ensures IsIterable(c) ==> r == Lookup(table, IterableName)
    ensures !IsIterable(c) && IsMap(c) ==> r == Lookup(table, MapName)
  {
    if IsIterable(c) then Lookup(table, IterableName)
    else if IsMap(c) then Lookup(table, MapName)
    else None
  }

  /**
   * get(Class): primitive codecs, then the array codec, then the exact entry,
   * then the collection fallback, and as a last resort the Object entry.
   */
  function Resolve(primitives: set<ClassName>, table: Table, c: ClassDesc): (r: Option<Encoder>)
    ensures r.Some? ==> r.value == PrimitiveCodecs || r.value == ArrayCodec || Some(r.value) in table.Values
    ensures r.None? ==> c.name !in primitives && !c.isArray && Lookup(table, c.name).None?
                        && Lookup(table, ObjectName).None?
  {
    var encoder :=
      if c.name in primitives then Some(PrimitiveCodecs)
      else if c.isArray then Some(ArrayCodec)
      else if Lookup(table, c.name).Some? then Lookup(table, c.name)
      else EncoderForCollection(table, c);
    if encoder.None? then Lookup(table, ObjectName) else encoder
  }

  /** get(value): the null encoder for null, otherwise resolution by the value's class. */
  function ResolveValue(primitives: set<ClassName>, table: Table, valueClass: Option<ClassDesc>): (r: Option<Encoder>)
    ensures valueClass.None? ==> r == Some(NullCodec)
  {
    match valueClass
    case None => Some(NullCodec)
    case Some(c) => Resolve(primitives, table, c)
  }

  lemma ValueResolvesByItsClass(primitives: set<ClassName>, table: Table, c: ClassDesc)
    ensures ResolveValue(primitives, table, Some(c)) == Resolve(primitives, table, c)
  {
  }

  /** A class the primitive codecs accept resolves to them, whatever the table holds for it. */
  lemma PrimitiveAlwaysWins(primitives: set<ClassName>, table: Table, c: ClassDesc, e: Option<Encoder>)
    requires c.name in primitives
    ensures Resolve(primitives, table, c) == Some(PrimitiveCodecs)
    ensures Resolve(primitives, table[c.name := e], c) == Some(PrimitiveCodecs)
  {
  }

  lemma ArrayClassesUseArrayCodec(primitives: set<ClassName>, table: Table, c: ClassDesc)
    requires c.name !in primitives && c.isArray
    ensures Resolve(primitives, table, c) == Some(ArrayCodec)
  {
  }

  /** An exact non-null entry wins over the Iterable and Map fallbacks. */
  lemma ExactEntryWins(primitives: set<ClassName>, table: Table, c: ClassDesc)
    requires c.name !in primitives && !c.isArray && Lookup(table, c.name).Some?
    ensures Resolve(primitives, table, c) == Lookup(table, c.name)
  {
  }

  /** An Iterable class without an entry of its own takes the Iterable entry, even if it is also a Map. */
  lemma IterableFallback(primitives: set<ClassName>, table: Table, c: ClassDesc)
    requires c.name !in primitives && !c.isArray && Lookup(table, c.name).None?
    requires IsIterable(c) && Lookup(table, IterableName).Some?
    ensures Resolve(primitives, table, c) == Lookup(table, IterableName)
  {
  }

  lemma MapFallback(primitives: set<ClassName>, table: Table, c: ClassDesc)
    requires c.name !in primitives && !c.isArray && Lookup(table, c.name).None?
    requires !IsIterable(c) && IsMap(c) && Lookup(table, MapName).Some?
    ensures Resolve(primitives, table, c) == Lookup(table, MapName)
  {
  }

  /** When no rule matches, the result is the Object entry, or none at all. */
  lemma ObjectIsLastResort(primitives: set<ClassName>, table: Table, c: ClassDesc)
    requires c.name !in primitives && !c.isArray && Lookup(table, c.name).None? && !IsIterable(c) && !IsMap(c)
    ensures Resolve(primitives, table, c) == Lookup(table, ObjectName)
  {
  }

  /** With the constructor's table, a class that matches no rule has no encoder. */
  lemma DefaultTableLeavesPlainClassesUnresolved(primitives: set<ClassName>, c: ClassDesc)
    requires c.name !in primitives && !c.isArray && c.name !in DefaultTable() && !IsIterable(c) && !IsMap(c)
    ensures Resolve(primitives, DefaultTable(), c) == None
  {
  }

  /** Entries are found by class name: any description named DBRef takes the DBRef encoder. */
  lemma EntryFollowsTheName(primitives: set<ClassName>, c: ClassDesc)
    requires c.name == DBRefName && c.name !in primitives && !c.isArray
    ensures Resolve(primitives, DefaultTable(), c) == Some(DBRefEncoder)
  {
  }

  /**
   * Registering a class changes resolution only for that class, unless it is one
   * of the classes the fallbacks consult (Iterable, Map, Object).
   */
  lemma RegisterAffectsOnlyThatClass(primitives: set<ClassName>, table: Table, k: ClassName, e: Option<Encoder>, c: ClassDesc)
    requires k != c.name && k != IterableName && k != MapName && k != ObjectName
    ensures Resolve(primitives, table[k := e], c) == Resolve(primitives, table, c)
  {
    assert Lookup(table[k := e], c.name) == Lookup(table, c.name);
    assert Lookup(table[k := e], IterableName) == Lookup(table, IterableName);
    assert Lookup(table[k := e], MapName) == Lookup(table, MapName);
    assert Lookup(table[k := e], ObjectName) == Lookup(table, ObjectName);
  }

  /**
   * Overriding one Iterable class takes it off the fallback path, while a sibling
   * Iterable class stays on it.
   */
  lemma OverrideLeavesSiblingOnFallback(primitives: set<ClassName>, table: Table, c: ClassDesc, sibling: ClassDesc, e: Encoder)
    requires IsIterable(c) && IsIterable(sibling) && c.name != sibling.name
    requires c.name != IterableName && c.name != MapName && c.name != ObjectName
    requires c.name !in primitives && !c.isArray && sibling.name !in primitives && !sibling.isArray
    requires Lookup(table, sibling.name).None? && Lookup(table, IterableName).Some?
    ensures Resolve(primitives, table[c.name := Some(e)], c) == Some(e)
    ensures Resolve(primitives, table[c.name := Some(e)], sibling) == Lookup(table, IterableName)
  {
    RegisterAffectsOnlyThatClass(primitives, table, c.name, Some(e), sibling);
    IterableFallback(primitives, table, sibling);
  }

  /**
   * A null registration hides the class's own entry: it resolves as if it had
   * none, here through the Iterable entry.
   */
  lemma NullRegistrationFallsThrough(primitives: set<ClassName>, table: Table, c: ClassDesc)
    requires c.name !in primitives && !c.isArray && IsIterable(c) && c.name != IterableName
    ensures Resolve(primitives, table[c.name := None], c) == Resolve(primitives, table - {c.name}, c)
    ensures Lookup(table, IterableName).Some? ==>
            Resolve(primitives, table[c.name := None], c) == Lookup(table, IterableName)
  {
    assert Lookup(table[c.name := None], IterableName) == Lookup(table, IterableName);
    assert Lookup(table - {c.name}, IterableName) == Lookup(table, IterableName);
  }

  /** The built-in collection entries hold encoders: the state every collection lookup relies on. */
  ghost predicate HasCollectionEntries(table: Table) {
    Lookup(table, IterableName).Some? && Lookup(table, MapName).Some?
  }

  /** While the Iterable and Map entries hold encoders, every Iterable or Map class finds an encoder. */
  lemma CollectionsAlwaysResolve(primitives: set<ClassName>, table: Table, c: ClassDesc)
    ensures HasCollectionEntries(table) && (IsIterable(c) || IsMap(c)) ==> Resolve(primitives, table, c).Some?
  {
  }

  /** The result `register` reports: `put` returned a non-null previous encoder. */
  function Replaced(table: Table, name: ClassName): (b: bool)
    ensures b <==> name in table && table[name].Some?
  {
    Lookup(table, name).Some?
  }

  /** Registering null and then an encoder for the same class reports no replacement the second time. */
  lemma NullEntryIsNotReplaced(table: Table, name: ClassName, e: Encoder)
    ensures name in table[name := None]
    ensures !Replaced(table[name := None], name)
    ensures Replaced(table[name := Some(e)], name)
  {
  }

  class EncoderRegistry {
    /** The names of the classes the default primitive codecs can encode. */
    const primitives: set<ClassName>
    var classToEncoder: Table

    ghost predicate Valid()
      reads this
    {
      HasCollectionEntries(classToEncoder)
    }

    constructor (primitives: set<ClassName>)
      ensures this.primitives == primitives
      ensures classToEncoder == DefaultTable()
      ensures Valid()
    {
      this.primitives := primitives;
      classToEncoder := DefaultTable();
    }

    /** get(Class): with the collection entries in place, collections always find an encoder. */
    function Get(c: ClassDesc): (r: Option<Encoder>)
      reads this
      ensures r.Some? ==> r.value == PrimitiveCodecs || r.value == ArrayCodec || Some(r.value) in classToEncoder.Values
      ensures Valid() && (IsIterable(c) || IsMap(c)) ==> r.Some?
    {
      CollectionsAlwaysResolve(primitives, classToEncoder, c);
      Resolve(primitives, classToEncoder, c)
    }

    /** get(value): null takes the null encoder; any other value is resolved by its class. */
    function GetForValue(valueClass: Option<ClassDesc>): (r: Option<Encoder>)
      reads this
      ensures valueClass.None? ==> r == Some(NullCodec)
      ensures valueClass.Some? ==> r == Get(valueClass.value)
    {
      ResolveValue(primitives, classToEncoder, valueClass)
    }

    /**
     * Stores `encoder` (None for null) for `c`, overriding any entry; reports
     * whether the entry it replaced held an encoder.
     */
    method Register(c: ClassDesc, encoder: Option<Encoder>) returns (replaced: bool)
      modifies this
      ensures replaced == Replaced(old(classToEncoder), c.name)
      ensures classToEncoder == old(classToEncoder)[c.name := encoder]
      ensures forall k :: k in old(classToEncoder) && k != c.name ==> classToEncoder[k] == old(classToEncoder)[k]
      ensures old(Valid()) && (encoder.Some? || (c.name != IterableName && c.name != MapName)) ==> Valid()
    {
      replaced := Lookup(classToEncoder, c.name).Some?;
      classToEncoder := classToEncoder[c.name := encoder];
    }
  }
}
