/** The field-role metadata of `CommonBean`: each declared field may carry `@Key(order)`,
    `@Required` and `@Info`; `setAnnotatedFields` turns a class's declared fields into three
    lists (key fields ranked by order, required fields, info fields) and stores them in a
    process-wide map keyed by class name, written at most once per class. */
module BeanMetadata {
  import opened Wrappers
  import opened JavaLang
  import opened BeanValues

  /** `@Key` without an explicit `order`. */
  const DEFAULT_KEY_ORDER: Int32 := 1

  /** A declared field and its annotations: `@Key(order = k)` is `key == Some(k)`. */
  datatype FieldDecl = FieldDecl(name: string, jtype: JavaType, key: Option<Int32>, required: bool, info: bool)

  /** A bean class: its fully qualified name (the cache key), its simple name (the prefix of
      `toString`) and its declared fields in the order `getDeclaredFields` lists them. */
  datatype ClassDecl = ClassDecl(name: string, simpleName: string, fields: seq<FieldDecl>)

  /** `CommonBean.Fields`: the three role lists of one class. */
  datatype Fields = Fields(keyFields: seq<FieldDecl>, requiredFields: seq<FieldDecl>, infoFields: seq<FieldDecl>)

  /** A bean: its class and the values its getters return, by property name. A name that is
      absent is a property whose read throws (no such getter). */
  datatype Bean = Bean(cls: ClassDecl, props: map<string, Value>)

  /** A Java class declares each field name once. */
  predicate DistinctNames(fs: seq<FieldDecl>)
  {
    forall i, j :: 0 <= i < j < |fs| ==> fs[i].name != fs[j].name
  }

  // ---------------------------------------------------------------------------------------
  // The precedence rule, stated declaratively

  datatype Role = KeyRole | RequiredRole | InfoRole

  /** Key beats Required, which beats Info. */
  predicate HasRole(f: FieldDecl, role: Role)
  {
    match role
    case KeyRole => f.key.Some?
    case RequiredRole => f.required && f.key.None?
    case InfoRole => f.info && !f.required && f.key.None?
  }

  /** The fields of `fs` whose effective role is `role`, in declaration order. */
  function OfRole(fs: seq<FieldDecl>, role: Role): (r: seq<FieldDecl>)
    ensures forall f :: f in r <==> f in fs && HasRole(f, role)
    decreases |fs|
  {
    if fs == [] then []
    else
      var f := fs[|fs| - 1];
      OfRole(fs[..|fs| - 1], role) + (if HasRole(f, role) then [f] else [])
  }

  /** `f` occurs in `fs` at a position after which no field has the same key order. */
  ghost predicate LastWithOrder(fs: seq<FieldDecl>, f: FieldDecl)
  {
    exists i :: 0 <= i < |fs| && fs[i] == f && forall j :: i < j < |fs| ==> fs[j].key != f.key
  }

  /** Which field each key order ends up with when the fields are put into a map one by one. */
  function LastByOrder(fs: seq<FieldDecl>): map<Int32, FieldDecl>
    decreases |fs|
  {
    if fs == [] then map[]
    else
      var f := fs[|fs| - 1];
      var m := LastByOrder(fs[..|fs| - 1]);
      if f.key.Some? then m[f.key.value := f] else m
  }

  // ---------------------------------------------------------------------------------------
  // The `TreeMap<Integer, Field>`: an association list kept in ascending key order

  type KeyMap = seq<(Int32, FieldDecl)>

  predicate StrictlySorted(m: KeyMap)
  {
    forall i, j :: 0 <= i < j < |m| ==> m[i].0 < m[j].0
  }

  /** The map an association list stands for. */
  function AsMap(m: KeyMap): map<Int32, FieldDecl>
  {
    if m == [] then map[] else AsMap(m[1..])[m[0].0 := m[0].1]
  }

  /** `TreeMap.put`: replaces the value of an existing key, or inserts the key in order. */
  function Put(m: KeyMap, k: Int32, f: FieldDecl): (r: KeyMap)
    requires StrictlySorted(m)
    ensures StrictlySorted(r)
    ensures forall i :: 0 <= i < |r| ==> r[i] == (k, f) || r[i] in m
  {
    if m == [] then [(k, f)]
    else if k < m[0].0 then [(k, f)] + m
    else if k == m[0].0 then [(k, f)] + m[1..]
    else
      var rest := Put(m[1..], k, f);
      assert forall i :: 0 <= i < |rest| ==> m[0].0 < rest[i].0;
      [m[0]] + rest
  }

  /** `put` makes the map an update of the previous one. */
  lemma {:induction false} PutAsMap(m: KeyMap, k: Int32, f: FieldDecl)
    requires StrictlySorted(m)
    ensures AsMap(Put(m, k, f)) == AsMap(m)[k := f]
  {
    if m != [] && k > m[0].0 {
      PutAsMap(m[1..], k, f);
      assert Put(m, k, f)[1..] == Put(m[1..], k, f);
    }
  }

  /** `TreeMap.values()`: the values in ascending key order. */
  function Values(m: KeyMap): (r: seq<FieldDecl>)
    ensures |r| == |m| && forall i :: 0 <= i < |m| ==> r[i] == m[i].1
  {
    seq(|m|, i requires 0 <= i < |m| => m[i].1)
  }

  lemma AsMapEntries(m: KeyMap)
    requires StrictlySorted(m)
    ensures forall i :: 0 <= i < |m| ==> m[i].0 in AsMap(m) && AsMap(m)[m[i].0] == m[i].1
    ensures forall k :: k in AsMap(m) ==> exists i :: 0 <= i < |m| && m[i].0 == k
  {
    AsMapHasEntries(m);
    AsMapKeysAreEntries(m);
  }

  lemma {:induction false} AsMapHasEntries(m: KeyMap)
    requires StrictlySorted(m)
    ensures forall i :: 0 <= i < |m| ==> m[i].0 in AsMap(m) && AsMap(m)[m[i].0] == m[i].1
  {
    if m != [] {
      AsMapHasEntries(m[1..]);
      forall i | 1 <= i < |m| ensures m[i].0 in AsMap(m) && AsMap(m)[m[i].0] == m[i].1 {
        assert m[1..][i - 1] == m[i];
        assert m[0].0 < m[i].0;
      }
    }
  }

  lemma {:induction false} AsMapKeysAreEntries(m: KeyMap)
    ensures forall k :: k in AsMap(m) ==> exists i :: 0 <= i < |m| && m[i].0 == k
  {
    if m != [] {
      AsMapKeysAreEntries(m[1..]);
      forall k | k in AsMap(m) ensures exists i :: 0 <= i < |m| && m[i].0 == k {
        if k != m[0].0 {
          assert k in AsMap(m[1..]);
          var i :| 0 <= i < |m[1..]| && m[1..][i].0 == k;
          assert m[i + 1].0 == k;
        }
      }
    }
  }

  // ---------------------------------------------------------------------------------------
  // setAnnotatedFields, as a specification

  /** The local variables of `setAnnotatedFields` after some of the declared fields. */
  datatype Scanned = Scanned(keyMap: KeyMap, keyFields: seq<FieldDecl>,
                             requiredFields: seq<FieldDecl>, infoFields: seq<FieldDecl>)

  /** One iteration of the loop over the declared fields. */
  function Step(st: Scanned, f: FieldDecl): Scanned
    requires StrictlySorted(st.keyMap)
  {
    var st1 := if f.key.Some?
      then st.(keyMap := Put(st.keyMap, f.key.value, f), keyFields := st.keyFields + [f])
      else st;
    var st2 := if f.required && f !in st1.keyFields
      then st1.(requiredFields := st1.requiredFields + [f])
      else st1;
    if f.info && f !in st2.keyFields && f !in st2.requiredFields
      then st2.(infoFields := st2.infoFields + [f])
      else st2
  }

  /** The loop's state after the fields `fs`. */
  function Scan(fs: seq<FieldDecl>): (st: Scanned)
    ensures StrictlySorted(st.keyMap)
    decreases |fs|
  {
    if fs == [] then Scanned([], [], [], [])
    else Step(Scan(fs[..|fs| - 1]), fs[|fs| - 1])
  }

  /** The entry `setAnnotatedFields` stores: the key fields rebuilt from the map in ascending
      order, then the required and info lists as collected. */
  function Annotate(fs: seq<FieldDecl>): Fields
  {
    var st := Scan(fs);
    Fields(Values(st.keyMap), st.requiredFields, st.infoFields)
  }

  /** The metadata every operation of a bean walks: `getAnnotatedFields(this.getClass())`.
      The cache below always hands out exactly this value. */
  function Metadata(b: Bean): Fields
  {
    Annotate(b.cls.fields)
  }

  // ---------------------------------------------------------------------------------------
  // What the metadata means

  /** The collected lists are exactly the declarative role lists, and the key map holds the
      last field declared with each order. */
  lemma {:induction false} ScanMeaning(fs: seq<FieldDecl>)
    ensures Scan(fs).keyFields == OfRole(fs, KeyRole)
    ensures Scan(fs).requiredFields == OfRole(fs, RequiredRole)
    ensures Scan(fs).infoFields == OfRole(fs, InfoRole)
    ensures AsMap(Scan(fs).keyMap) == LastByOrder(fs)
    decreases |fs|
  {
    if fs != [] {
      var init, f := fs[..|fs| - 1], fs[|fs| - 1];
      ScanMeaning(init);
      var st := Scan(init);
      if f.key.Some? { PutAsMap(st.keyMap, f.key.value, f); }
    }
  }

  /** Each order in the map is held by a field declared with that order, and it is the last
      such field; conversely the last field declared with an order holds it. */
  lemma {:induction false} LastByOrderMeaning(fs: seq<FieldDecl>, g: FieldDecl)
    requires g.key.Some?
    ensures (g.key.value in LastByOrder(fs) && LastByOrder(fs)[g.key.value] == g) <==> LastWithOrder(fs, g)
    ensures forall k :: k in LastByOrder(fs) ==> LastByOrder(fs)[k].key == Some(k)
    decreases |fs|
  {
    if fs != [] {
      var init, f := fs[..|fs| - 1], fs[|fs| - 1];
      LastByOrderMeaning(init, g);
      var n := |fs| - 1;
      if f.key == g.key {
        if LastWithOrder(fs, g) {
          var i :| 0 <= i < |fs| && fs[i] == g && forall j :: i < j < |fs| ==> fs[j].key != g.key;
          assert i == n;
        }
        if f == g {
          assert fs[n] == g;
        }
      } else {
        if LastWithOrder(init, g) {
          var i :| 0 <= i < |init| && init[i] == g && forall j :: i < j < |init| ==> init[j].key != g.key;
          assert fs[i] == g && forall j :: i < j < |fs| ==> fs[j].key != g.key;
        }
        if LastWithOrder(fs, g) {
          var i :| 0 <= i < |fs| && fs[i] == g && forall j :: i < j < |fs| ==> fs[j].key != g.key;
          assert i < n;
          assert init[i] == g && forall j :: i < j < |init| ==> init[j].key != g.key;
        }
      }
    }
  }

  /** Every entry of the key map is held by a field declared with that order. */
  lemma KeyMapEntries(fs: seq<FieldDecl>)
    ensures forall i :: 0 <= i < |Scan(fs).keyMap| ==> Scan(fs).keyMap[i].1.key == Some(Scan(fs).keyMap[i].0)
  {
    var m := Scan(fs).keyMap;
    ScanMeaning(fs);
    AsMapEntries(m);
    forall i | 0 <= i < |m| ensures m[i].1.key == Some(m[i].0) {
      LastByOrderMeaning(fs, m[i].1);
      assert AsMap(m)[m[i].0] == m[i].1;
    }
  }

  /** The key list holds exactly the last field declared with each order ... */
  lemma AnnotateKeyFields(fs: seq<FieldDecl>, g: FieldDecl)
    ensures g in Annotate(fs).keyFields <==> g.key.Some? && LastWithOrder(fs, g)
  {
    var m := Scan(fs).keyMap;
    var keys := Annotate(fs).keyFields;
    ScanMeaning(fs);
    AsMapEntries(m);
    KeyMapEntries(fs);
    if g in keys {
      var i :| 0 <= i < |keys| && keys[i] == g;
      assert m[i].1 == g && AsMap(m)[m[i].0] == g;
      LastByOrderMeaning(fs, g);
    }
    if g.key.Some? && LastWithOrder(fs, g) {
      LastByOrderMeaning(fs, g);
      var i :| 0 <= i < |m| && m[i].0 == g.key.value;
      assert keys[i] == g;
    }
  }

  /** ... ranked by strictly ascending order ... */
  lemma AnnotateKeysAscending(fs: seq<FieldDecl>)
    ensures forall i, j :: 0 <= i < j < |Annotate(fs).keyFields| ==>
      Annotate(fs).keyFields[i].key.Some? && Annotate(fs).keyFields[j].key.Some? &&
      Annotate(fs).keyFields[i].key.value < Annotate(fs).keyFields[j].key.value
  {
    KeyMapEntries(fs);
    var m := Scan(fs).keyMap;
    var keys := Annotate(fs).keyFields;
    forall i, j | 0 <= i < j < |keys|
      ensures keys[i].key.Some? && keys[j].key.Some? && keys[i].key.value < keys[j].key.value
    {
      assert keys[i] == m[i].1 && keys[j] == m[j].1;
    }
  }

  /** ... and the required and info lists are the declarative role lists, so that no field
      is in two lists (precedence Key > Required > Info). */
  lemma AnnotateRoles(fs: seq<FieldDecl>)
    ensures Annotate(fs).requiredFields == OfRole(fs, RequiredRole)
    ensures Annotate(fs).infoFields == OfRole(fs, InfoRole)
    ensures forall g :: g in Annotate(fs).keyFields ==> g !in Annotate(fs).requiredFields && g !in Annotate(fs).infoFields
    ensures forall g :: g in Annotate(fs).requiredFields ==> g !in Annotate(fs).infoFields
  {
    ScanMeaning(fs);
    forall g | g in Annotate(fs).keyFields ensures g.key.Some? {
      AnnotateKeyFields(fs, g);
    }
  }

  /** Two key fields with the same order collapse: a key field followed, later in the
      declaration, by another field with the same order ends up in none of the lists. */
  lemma DroppedKeyInNoList(fs: seq<FieldDecl>, i: nat, j: nat)
    requires DistinctNames(fs)
    requires i < j < |fs| && fs[i].key.Some? && fs[j].key == fs[i].key
    ensures fs[i] !in Annotate(fs).keyFields
    ensures fs[i] !in Annotate(fs).requiredFields
    ensures fs[i] !in Annotate(fs).infoFields
  {
    AnnotateRoles(fs);
    AnnotateKeyFields(fs, fs[i]);
    forall i' | 0 <= i' < |fs| && fs[i'] == fs[i] ensures exists j' :: i' < j' < |fs| && fs[j'].key == fs[i].key {
      assert i' == i;
    }
  }

  // ---------------------------------------------------------------------------------------
  // The process-wide cache `annotatedFieldsMap`

  class Registry {
    /** class name -> its metadata */
    var entries: map<string, Fields>
    /** the classes whose metadata has been stored */
    ghost var classes: map<string, ClassDecl>

    ghost predicate Valid()
      reads this
    {
      entries.Keys == classes.Keys &&
      forall n :: n in entries ==> classes[n].name == n && entries[n] == Annotate(classes[n].fields)
    }

    /** A class name stands for one class. */
    ghost predicate Knows(c: ClassDecl)
      reads this
    {
      c.name in classes ==> classes[c.name] == c
    }

    constructor ()
      ensures Valid() && entries == map[] && classes == map[]
    {
      entries := map[];
      classes := map[];
    }

    /** Computes and stores the metadata of `c` unless the map already holds an entry for its
        name, in which case nothing changes. */
    method SetAnnotatedFields(c: ClassDecl)
      requires Valid() && Knows(c)
      modifies this
      ensures Valid()
      ensures c.name in old(entries) ==> entries == old(entries) && classes == old(classes)
      ensures c.name !in old(entries) ==>
        entries == old(entries)[c.name := Annotate(c.fields)] && classes == old(classes)[c.name := c]
    {
      if c.name !in entries {
        var keyMap: KeyMap := [];
        var keyFields: seq<FieldDecl> := [];
        var requiredFields: seq<FieldDecl> := [];
        var infoFields: seq<FieldDecl> := [];
        var i := 0;
        while i < |c.fields|
          invariant 0 <= i <= |c.fields|
          invariant Scanned(keyMap, keyFields, requiredFields, infoFields) == Scan(c.fields[..i])
        {
          var field := c.fields[i];
          if field.key.Some? {
            keyMap := Put(keyMap, field.key.value, field);
            keyFields := keyFields + [field];
          }
          if field.required {
            if field !in keyFields {
              requiredFields := requiredFields + [field];
            }
          }
          if field.info {
            if field !in keyFields && field !in requiredFields {
              infoFields := infoFields + [field];
            }
          }
          assert c.fields[..i + 1][..i] == c.fields[..i];
          i := i + 1;
        }
        assert c.fields[..i] == c.fields;
        // Put key fields in proper order
        keyFields := [];
        var j := 0;
        while j < |keyMap|
          invariant 0 <= j <= |keyMap|
          invariant keyFields == Values(keyMap[..j])
        {
          keyFields := keyFields + [keyMap[j].1];
          j := j + 1;
        }
        assert keyMap[..j] == keyMap;
        entries := entries[c.name := Fields(keyFields, requiredFields, infoFields)];
        classes := classes[c.name := c];
      }
    }

    /** The metadata of `c`, computed on first use and taken from the map afterwards. */
    method GetAnnotatedFields(c: ClassDecl) returns (r: Fields)
      requires Valid() && Knows(c)
      modifies this
      ensures Valid() && Knows(c)
      ensures r == Annotate(c.fields)
      ensures c.name in entries && entries[c.name] == r
      ensures c.name in old(entries) ==> entries == old(entries) && classes == old(classes)
      ensures c.name !in old(entries) ==>
        entries == old(entries)[c.name := r] && classes == old(classes)[c.name := c]
    {
      var annotated := if c.name in entries then Some(entries[c.name]) else None;
      if annotated.None? {
        SetAnnotatedFields(c);
        annotated := Some(entries[c.name]);
      }
      r := annotated.value;
    }
  }
}
