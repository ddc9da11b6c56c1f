/** The two record classes built on the framework: `Item` (a stock level of one product at one
    location) and `Location` (a store or warehouse). Each is a class with mutable fields and
    setters; `ToBean` is the view the framework reads through the getters. */
module DomainBeans {
  import opened Wrappers
  import opened JavaLang
  import opened BeanValues
  import opened BeanMetadata
  import opened BeanIdentity
  import opened BeanRender
  import opened BeanValidate

  /** A Java `String` reference: `None` is null. */
  function StrValue(s: Option<string>): Value
  {
    match s
    case None => Null
    case Some(t) => Str(t)
  }

  // ---------------------------------------------------------------------------------------
  // Item

  const PRODUCT_ID := FieldDecl("productId", StringType, Some(DEFAULT_KEY_ORDER), false, false)
  const LOCATION_CODE := FieldDecl("locationCode", StringType, Some(DEFAULT_KEY_ORDER), false, false)
  const QUANTITY := FieldDecl("quantity", PrimitiveType(IntP), None, true, false)

  /** `Item`'s declared fields: two keys, both with the default order, and a required `int`. */
  const ITEM_CLASS := ClassDecl("org.lab.sms.domain.Item", "Item", [PRODUCT_ID, LOCATION_CODE, QUANTITY])

  function ItemBean(productId: Option<string>, locationCode: Option<string>, quantity: Int32): Bean
  {
    Bean(ITEM_CLASS, map["productId" := StrValue(productId), "locationCode" := StrValue(locationCode), "quantity" := Int(quantity)])
  }

  class Item {
    var productId: Option<string>
    var locationCode: Option<string>
    var quantity: Int32

    constructor (productId: Option<string>, locationCode: Option<string>, quantity: Int32)
      ensures this.productId == productId && this.locationCode == locationCode && this.quantity == quantity
    {
      this.productId := productId;
      this.locationCode := locationCode;
      this.quantity := quantity;
    }

    /** What the framework reads through the three getters. */
    function ToBean(): Bean
      reads this
    {
      ItemBean(productId, locationCode, quantity)
    }

    method SetProductId(productId: Option<string>)
      modifies this
      ensures this.productId == productId
      ensures locationCode == old(locationCode) && quantity == old(quantity)
    {
      this.productId := productId;
    }

    method SetLocationCode(locationCode: Option<string>)
      modifies this
      ensures this.locationCode == locationCode
      ensures productId == old(productId) && quantity == old(quantity)
    {
      this.locationCode := locationCode;
    }

    method SetQuantity(quantity: Int32)
      modifies this
      ensures this.quantity == quantity
      ensures productId == old(productId) && locationCode == old(locationCode)
    {
      this.quantity := quantity;
    }
  }

  /** The metadata of `Item`: the two keys share order 1, so the later one, `locationCode`,
      replaces `productId` in the key map, and `productId`, having been a key during the scan,
      is not listed as required or info either: it lands in no list at all. */
  lemma ItemMetadata()
    ensures Annotate(ITEM_CLASS.fields) == Fields([LOCATION_CODE], [QUANTITY], [])
  {
    var fs := ITEM_CLASS.fields;
    assert fs[..1][..0] == [];
    assert Scan(fs[..1]) == Scanned([(1, PRODUCT_ID)], [PRODUCT_ID], [], []);
    assert fs[..2][..1] == fs[..1];
    assert Scan(fs[..2]) == Scanned([(1, LOCATION_CODE)], [PRODUCT_ID, LOCATION_CODE], [], []);
    assert fs[..3][..2] == fs[..2] && fs[..3] == fs;
    assert Scan(fs) == Scanned([(1, LOCATION_CODE)], [PRODUCT_ID, LOCATION_CODE], [QUANTITY], []);
    assert Values([(1, LOCATION_CODE)]) == [LOCATION_CODE];
  }

  /** Two items are equal exactly when their location codes are: neither the quantity nor,
      because of the order collision, the product id takes part. */
  lemma ItemEquals(p1: Option<string>, l1: Option<string>, q1: Int32, p2: Option<string>, l2: Option<string>, q2: Int32)
    ensures Equals(ItemBean(p1, l1, q1), Some(ItemBean(p2, l2, q2))) <==> l1 == l2
  {
    ItemMetadata();
    assert LOCATION_CODE in Metadata(ItemBean(p1, l1, q1)).keyFields;
  }

  /** An item's hash code is its location code's `String.hashCode()`, or 0 when that is null. */
  lemma ItemHash(p: Option<string>, l: Option<string>, q: Int32)
    ensures Hash(ItemBean(p, l, q)) == (if l.Some? then StringHash(l.value) else 0)
  {
    ItemMetadata();
    var b := ItemBean(p, l, q);
    var keys := Metadata(b).keyFields;
    assert keys == [LOCATION_CODE] && keys[..|keys| - 1] == [];
    assert KeyHash(keys, b) == match Contribution(b, LOCATION_CODE) case Some(c) => Wrap32(37 * 0 + c) case None => 0;
  }

  /** `validate` rejects an item only for its location code; the quantity, a primitive, is
      never null, and the product id is not checked at all. */
  lemma ItemValidate(p: Option<string>, l: Option<string>, q: Int32)
    ensures Validate(ItemBean(p, l, q)) ==
      if l == None || l == Some("") then Fail(RequiredValueMissing("locationCode")) else Pass
  {
    ItemMetadata();
    var b := ItemBean(p, l, q);
    assert CheckedFields(Metadata(b)) == [LOCATION_CODE, QUANTITY];
    CheckTwoFields(b, LOCATION_CODE, QUANTITY);
    CheckStringField(b, LOCATION_CODE, l);
    assert CheckField(b, QUANTITY) == Pass;
  }

  /** A string property fails `validate` when it is null or empty. */
  lemma CheckStringField(b: Bean, f: FieldDecl, s: Option<string>)
    requires f.name in b.props && b.props[f.name] == StrValue(s)
    ensures CheckField(b, f) == if s == None || s == Some("") then Fail(RequiredValueMissing(f.name)) else Pass
  {
  }

  /** `toString` of an item lists the location code and the quantity. */
  lemma ItemRender(env: Platform, p: Option<string>, l: Option<string>, q: Int32)
    ensures Render(env, ItemBean(p, l, q)) ==
      "Item" + "(" + "locationCode" + "=" + (if l.Some? then l.value else "null") + "," + "quantity" + "=" + IntToString(q) + ")"
  {
    ItemMetadata();
    var b := ItemBean(p, l, q);
    RenderTwoFields(env, b, LOCATION_CODE, QUANTITY);
    assert PropertyText(env, b, "locationCode") == if l.Some? then l.value else "null";
    assert PropertyText(env, b, "quantity") == IntToString(q);
  }

  /** An item equals every location: the location has no `locationCode` property, so the one
      key field is skipped and nothing is left to differ. */
  lemma ItemEqualsAnyLocation(p: Option<string>, l: Option<string>, q: Int32, code: Option<string>, name: Option<string>)
    ensures Equals(ItemBean(p, l, q), Some(LocationBean(code, name)))
  {
    ItemMetadata();
  }

  // ---------------------------------------------------------------------------------------
  // Location

  const CODE := FieldDecl("code", StringType, Some(DEFAULT_KEY_ORDER), false, false)
  const NAME := FieldDecl("name", StringType, None, true, false)

  /** `Location`'s declared fields: the key `code` and the required `name`. */
  const LOCATION_CLASS := ClassDecl("org.lab.sms.domain.Location", "Location", [CODE, NAME])

  function LocationBean(code: Option<string>, name: Option<string>): Bean
  {
    Bean(LOCATION_CLASS, map["code" := StrValue(code), "name" := StrValue(name)])
  }

  class Location {
    var code: Option<string>
    var name: Option<string>

    constructor (code: Option<string>, name: Option<string>)
      ensures this.code == code && this.name == name
    {
      this.code := code;
      this.name := name;
    }

    /** What the framework reads through the two getters. */
    function ToBean(): Bean
      reads this
    {
      LocationBean(code, name)
    }

    method SetCode(code: Option<string>)
      modifies this
      ensures this.code == code && name == old(name)
    {
      this.code := code;
    }

    method SetName(name: Option<string>)
      modifies this
      ensures this.name == name && code == old(code)
    {
      this.name := name;
    }
  }

  lemma LocationMetadata()
    ensures Annotate(LOCATION_CLASS.fields) == Fields([CODE], [NAME], [])
  {
    var fs := LOCATION_CLASS.fields;
    assert fs[..1][..0] == [];
    assert Scan(fs[..1]) == Scanned([(1, CODE)], [CODE], [], []);
    assert fs[..2][..1] == fs[..1] && fs[..2] == fs;
    assert Scan(fs) == Scanned([(1, CODE)], [CODE], [NAME], []);
    assert Values([(1, CODE)]) == [CODE];
  }

  /** Two locations are equal exactly when their codes are; the name plays no part. */
  lemma LocationEquals(c1: Option<string>, n1: Option<string>, c2: Option<string>, n2: Option<string>)
    ensures Equals(LocationBean(c1, n1), Some(LocationBean(c2, n2))) <==> c1 == c2
  {
    LocationMetadata();
    assert CODE in Metadata(LocationBean(c1, n1)).keyFields;
  }

  /** Locations with codes are ordered by `String.compareTo` of the codes, its value passed
      through without being clamped to -1, 0 or 1. */
  lemma LocationCompare(c1: string, n1: Option<string>, c2: string, n2: Option<string>)
    ensures CompareTo(LocationBean(Some(c1), n1), Some(LocationBean(Some(c2), n2))) == StringCompare(c1, c2)
  {
    LocationMetadata();
    LocationEquals(Some(c1), n1, Some(c2), n2);
    StringCompareMeaning(c1, c2);
    var keys := Metadata(LocationBean(Some(c1), n1)).keyFields;
    assert keys[1..] == [];
  }

  /** For instance `S1` comes before `S3` by 2, not by 1. */
  lemma LocationCompareUnclamped()
    ensures CompareTo(LocationBean(Some("S1"), Some("Store 1")), Some(LocationBean(Some("S3"), Some("Store 3")))) == -2
  {
    LocationCompare("S1", Some("Store 1"), "S3", Some("Store 3"));
  }

  /** `validate` checks `code` before `name` and reports the first null or empty one. */
  lemma LocationValidate(c: Option<string>, n: Option<string>)
    ensures Validate(LocationBean(c, n)) ==
      if c == None || c == Some("") then Fail(RequiredValueMissing("code"))
      else if n == None || n == Some("") then Fail(RequiredValueMissing("name"))
      else Pass
  {
    LocationMetadata();
    var b := LocationBean(c, n);
    assert CheckedFields(Metadata(b)) == [CODE, NAME];
    CheckTwoFields(b, CODE, NAME);
    CheckStringField(b, CODE, c);
    CheckStringField(b, NAME, n);
  }

  /** `toString` of a location is `Location(code=<code>,name=<name>)`. */
  lemma LocationRender(env: Platform, c: Option<string>, n: Option<string>)
    ensures Render(env, LocationBean(c, n)) ==
      "Location" + "(" + "code" + "=" + (if c.Some? then c.value else "null") + "," + "name" + "=" + (if n.Some? then n.value else "null") + ")"
  {
    LocationMetadata();
    var b := LocationBean(c, n);
    RenderTwoFields(env, b, CODE, NAME);
    assert PropertyText(env, b, "code") == if c.Some? then c.value else "null";
    assert PropertyText(env, b, "name") == if n.Some? then n.value else "null";
  }

  // ---------------------------------------------------------------------------------------
  // Item with distinct key orders

  const LOCATION_CODE_SECOND := FieldDecl("locationCode", StringType, Some(2), false, false)

  /** `Item` as evidently intended: the product id and the location code together identify a
      stock level, as they do in the repository, so the keys get orders 1 and 2. */
  const ITEM_CLASS_FIXED := ClassDecl("org.lab.sms.domain.Item", "Item", [PRODUCT_ID, LOCATION_CODE_SECOND, QUANTITY])

  function ItemBeanFixed(productId: Option<string>, locationCode: Option<string>, quantity: Int32): Bean
  {
    Bean(ITEM_CLASS_FIXED, map["productId" := StrValue(productId), "locationCode" := StrValue(locationCode), "quantity" := Int(quantity)])
  }

  lemma ItemFixedMetadata()
    ensures Annotate(ITEM_CLASS_FIXED.fields) == Fields([PRODUCT_ID, LOCATION_CODE_SECOND], [QUANTITY], [])
  {
    var fs := ITEM_CLASS_FIXED.fields;
    ItemFixedScanKeys();
    assert fs[..3][..2] == fs[..2] && fs[..3] == fs;
    assert Scan(fs) == Scanned([(1, PRODUCT_ID), (2, LOCATION_CODE_SECOND)], [PRODUCT_ID, LOCATION_CODE_SECOND], [QUANTITY], []);
    assert Values([(1, PRODUCT_ID), (2, LOCATION_CODE_SECOND)]) == [PRODUCT_ID, LOCATION_CODE_SECOND];
  }

  lemma ItemFixedScanKeys()
    ensures Scan(ITEM_CLASS_FIXED.fields[..2]) ==
            Scanned([(1, PRODUCT_ID), (2, LOCATION_CODE_SECOND)], [PRODUCT_ID, LOCATION_CODE_SECOND], [], [])
  {
    var fs := ITEM_CLASS_FIXED.fields;
    assert fs[..1][..0] == [];
    assert Scan(fs[..1]) == Scanned([(1, PRODUCT_ID)], [PRODUCT_ID], [], []);
    assert fs[..2][..1] == fs[..1];
  }

  /** As written, two stock levels of different products at one location are equal. */
  lemma ItemKeyCollision()
    ensures Equals(ItemBean(Some("P1"), Some("S1"), 5), Some(ItemBean(Some("P2"), Some("S1"), 7)))
  {
    ItemEquals(Some("P1"), Some("S1"), 5, Some("P2"), Some("S1"), 7);
  }

  /** With distinct orders, two items are equal exactly when both the product id and the
      location code are. */
  lemma ItemFixedEquals(p1: Option<string>, l1: Option<string>, q1: Int32, p2: Option<string>, l2: Option<string>, q2: Int32)
    ensures Equals(ItemBeanFixed(p1, l1, q1), Some(ItemBeanFixed(p2, l2, q2))) <==> p1 == p2 && l1 == l2
  {
    ItemFixedMetadata();
    var keys := Metadata(ItemBeanFixed(p1, l1, q1)).keyFields;
    assert PRODUCT_ID in keys && LOCATION_CODE_SECOND in keys;
  }

  /** With two keys, the early answer 0 for a key null on both sides shows: two items without
      a product id at different locations are not equal, yet `compareTo` calls them equal.
      The corrected walk moves on and orders them by location. */
  lemma BothNullKeyStopsCompare()
    ensures var a, b := ItemBeanFixed(None, Some("S1"), 1), ItemBeanFixed(None, Some("S2"), 1);
      && !Equals(a, Some(b))
      && CompareTo(a, Some(b)) == 0
      && CompareToFixed(a, Some(b)) == -1
  {
    var a, b := ItemBeanFixed(None, Some("S1"), 1), ItemBeanFixed(None, Some("S2"), 1);
    ItemFixedEquals(None, Some("S1"), 1, None, Some("S2"), 1);
    ItemFixedMetadata();
    var keys := Metadata(a).keyFields;
    assert keys == [PRODUCT_ID, LOCATION_CODE_SECOND];
    BothNullWalks(a, b);
  }

  lemma BothNullWalks(a: Bean, b: Bean)
    requires a == ItemBeanFixed(None, Some("S1"), 1) && b == ItemBeanFixed(None, Some("S2"), 1)
    ensures CompareKeys([PRODUCT_ID, LOCATION_CODE_SECOND], a, b) == 0
    ensures CompareKeysFixed([PRODUCT_ID, LOCATION_CODE_SECOND], a, b) == -1
  {
    var keys := [PRODUCT_ID, LOCATION_CODE_SECOND];
    assert keys[1..] == [LOCATION_CODE_SECOND] && keys[1..][1..] == [];
    assert KeyVerdict(PRODUCT_ID, a, b) == ValueVerdict(StringType, Null, Null) == Some(0);
    assert KeyVerdictFixed(PRODUCT_ID, a, b) == ValueVerdictFixed(Null, Null) == None;
    assert StringCompare("S1", "S2") == -1;
    assert KeyVerdictFixed(LOCATION_CODE_SECOND, a, b) == ValueVerdictFixed(Str("S1"), Str("S2")) == Some(-1);
  }
}
