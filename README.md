# Stock management service: a Dafny model

The stock management service records how many units of each product sit at each location.
This project models three parts of it:

* **The record framework.** `CommonBean` is the base class of the domain records. Annotations pick the fields that act as keys, the required fields and the informational fields, in this order of precedence:
  * `@Key(order)` marks a key.
  * `@Required` marks a required field.
  * `@Info` marks an informational field.

  The class stores the role lists of each class in a static cache, `setAnnotatedFields` / `getAnnotatedFields`. It defines `equals`, `hashCode` and `compareTo` over the key fields. `toString` covers every annotated field, and `validate` covers the key and required fields.
* **The two records built on the framework:**
  * `Item` is the stock level of a product at a location.
  * `Location` is a store.
* **The stock logic.** `StockManager` does the following:
  * sets stock levels, creating the products it does not know yet;
  * adds deltas from a list of stocks;
  * adds deltas from the lines `productId,delta,locationCode` of an upload;
  * lists the stock levels, all of them or those of some products.

  It does all of this over the stock repository, which is modelled as two tables kept in primary-key order:
  * `product`, keyed by id;
  * `item`, keyed by product id and location code.

## Modules

* `Wrappers`: `Option`, `Result`, `Outcome`.
* `JavaLang`: the parts of `java.lang` the code relies on:
  * `int` narrowing;
  * `Long.hashCode`;
  * `String.hashCode` and `String.compareTo`;
  * `Integer.toString` and `Integer.parseInt`.
* `JavaSplit`: `String.split("\\s?,\\s?")`, with Java's removal of trailing empty strings.
* `BeanValues`: property values and their types, their `hashCode`, and their reflective `compareTo`. It also holds `Platform`, which supplies floating-point and date text.
* `BeanMetadata`: the role metadata, `Registry` (the static cache, as a class), `setAnnotatedFields` and `getAnnotatedFields`.
* `BeanIdentity`: `equals`, `hashCode` and `compareTo`.
* `BeanRender`: `toString`.
* `BeanValidate`: `validate`.
* `DomainBeans`: `Item` and `Location`, as classes with their setters, and what the framework makes of them.
* `Tables`: sorted tables, upsert and lookup, and the orders they are kept in.
* `StockStore`: `StockRepository`, the repository operations the stock logic calls.
* `StockLogic`: `StockManager` and the specification functions its methods are proved against.
* `StockProperties`: what the stock operations promise, proved about those specification functions.

The methods that loop in the source are proved against a specification function:
* `SetAnnotatedFields` and its two loops;
* the loops of `equals`, `hashCode`, `compareTo`, `toString` and `validate`;
* the loops of `StockManager`.

The lemmas then state what the source promises about those functions.

## Model

| member | source | states |
|---|---|---|
| JavaLang.Wrap32 | sms/src/main/java/org/lab/sms/domain/CommonBean.java:144 | Java `int` arithmetic: the result is congruent to the exact value modulo 2^32 and equals it when it fits in 32 bits |
| JavaLang.Wrap32Congruent | sms/src/main/java/org/lab/sms/domain/CommonBean.java:144 | values that differ by a multiple of 2^32 narrow to the same `int` |
| JavaLang.LongHashOfNonNegativeInt | sms/src/main/java/org/lab/sms/domain/CommonBean.java:135-136 | `(int)(v ^ (v >>> 32))` of a non-negative long that fits in an `int` is the value itself |
| JavaLang.LongHashOfNegativeInt | sms/src/main/java/org/lab/sms/domain/CommonBean.java:135-136 | the same hash of a negative long that fits in an `int` is `-v - 1`, so 0 and -1 hash alike |
| JavaLang.StringCompareMeaning | sms/src/main/java/org/lab/sms/domain/CommonBean.java:183-186 | `String.compareTo` is zero exactly on equal strings and negative exactly in lexicographic order |
| JavaLang.StringCompareAntisymmetric | sms/src/main/java/org/lab/sms/domain/CommonBean.java:183-186 | swapping the operands of `String.compareTo` negates the result |
| JavaLang.StringCompareTransitive | sms/src/main/java/org/lab/sms/dataaccess/JdbcStockRepository.java:115 | the order of `String.compareTo` is transitive, so it can serve as the order of the `order by` clauses |
| JavaLang.DigitsRoundTrip | sms/src/main/java/org/lab/sms/logic/StockManager.java:86 | the decimal digits of a natural number are non-empty digits whose value is that number |
| JavaLang.IntToStringRoundTrip | sms/src/main/java/org/lab/sms/logic/StockManager.java:86 | `Integer.parseInt` reads back every `int` that `Integer.toString` prints |
| BeanValues.Sign | sms/src/main/java/org/lab/sms/domain/CommonBean.java:189-194 | the sign of a difference is -1, 0 or 1 and agrees with the difference |
| BeanValues.NativeCompareDefined | sms/src/main/java/org/lab/sms/domain/CommonBean.java:179-187 | two non-null values of a key type that declares `compareTo` can always be compared reflectively |
| BeanValues.NativeCompareZero | sms/src/main/java/org/lab/sms/domain/CommonBean.java:183-187 | the reflective `compareTo` is zero exactly on equal values |
| BeanValues.NativeCompareAntisymmetric | sms/src/main/java/org/lab/sms/domain/CommonBean.java:183-187 | swapping the operands of the reflective `compareTo` negates its result |
| BeanMetadata.OfRole | sms/src/main/java/org/lab/sms/domain/CommonBean.java:288-304 | a field is in a role list iff it is declared and the role is its strongest annotation: key beats required, and required beats info |
| BeanMetadata.Put | sms/src/main/java/org/lab/sms/domain/CommonBean.java:291 | `TreeMap.put` keeps the keys strictly ascending and holds only the new entry and old entries |
| BeanMetadata.PutAsMap | sms/src/main/java/org/lab/sms/domain/CommonBean.java:291 | `put` makes the map an update of the previous map at that key |
| BeanMetadata.AsMapEntries | sms/src/main/java/org/lab/sms/domain/CommonBean.java:283 | a sorted association list holds exactly its entries as a map |
| BeanMetadata.ScanMeaning | sms/src/main/java/org/lab/sms/domain/CommonBean.java:288-304 | the declared-field loop collects exactly the key, required and info role lists, and its map holds the last field declared with each key order |
| BeanMetadata.LastByOrderMeaning | sms/src/main/java/org/lab/sms/domain/CommonBean.java:291 | a field holds its key order in the map iff no later field is declared with the same order |
| BeanMetadata.KeyMapEntries | sms/src/main/java/org/lab/sms/domain/CommonBean.java:291 | every entry of the key map is a field declared with that order |
| BeanMetadata.AnnotateKeyFields | sms/src/main/java/org/lab/sms/domain/CommonBean.java:306-310 | the stored key list holds exactly the last field declared with each order |
| BeanMetadata.AnnotateKeysAscending | sms/src/main/java/org/lab/sms/domain/CommonBean.java:306-310 | the stored key list, rebuilt from `keyMap.values()`, is ranked by strictly ascending `@Key` order |
| BeanMetadata.AnnotateRoles | sms/src/main/java/org/lab/sms/domain/CommonBean.java:294-303 | the required and info lists are the role lists, and no field sits in two lists |
| BeanMetadata.DroppedKeyInNoList | sms/src/main/java/org/lab/sms/domain/CommonBean.java:290-310 | a key field followed by another field with the same order ends up in none of the three lists |
| BeanMetadata.Registry.constructor | sms/src/main/java/org/lab/sms/domain/CommonBean.java:61 | the cache starts empty |
| BeanMetadata.Registry.SetAnnotatedFields | sms/src/main/java/org/lab/sms/domain/CommonBean.java:280-315 | a cached class is left alone; otherwise the class's entry becomes the annotated role lists and nothing else changes |
| BeanMetadata.Registry.GetAnnotatedFields | sms/src/main/java/org/lab/sms/domain/CommonBean.java:268-277 | returns the annotated role lists and caches them, computing them only on first use |
| BeanIdentity.KeysEqual | sms/src/main/java/org/lab/sms/domain/CommonBean.java:89-101 | the key loop of `equals` is true iff every key field that both sides can read holds equal values; null equals only null |
| BeanIdentity.Equals | sms/src/main/java/org/lab/sms/domain/CommonBean.java:81-104 | `equals` is false for null; otherwise it is the key loop over this bean's class metadata |
| BeanIdentity.EqualsCheck | sms/src/main/java/org/lab/sms/domain/CommonBean.java:81-104 | `equals` through the metadata cache returns `Equals` and leaves a filled cache unchanged |
| BeanIdentity.EqualsLoop | sms/src/main/java/org/lab/sms/domain/CommonBean.java:89-103 | the loop returns the key-equality verdict |
| BeanIdentity.EqualsReflexiveSymmetric | sms/src/main/java/org/lab/sms/domain/CommonBean.java:81-104 | for beans of one class `equals` is reflexive and symmetric |
| BeanIdentity.EqualsReadsOnlyKeys | sms/src/main/java/org/lab/sms/domain/CommonBean.java:85-101 | `equals` depends on nothing but the key properties |
| BeanIdentity.HashKeys | sms/src/main/java/org/lab/sms/domain/CommonBean.java:116-148 | the loop computes the `37 * h + fieldHash` accumulator over the key fields |
| BeanIdentity.HashCode | sms/src/main/java/org/lab/sms/domain/CommonBean.java:111-151 | `hashCode` through the metadata cache returns `Hash` and leaves a filled cache unchanged |
| BeanIdentity.KeyHashIsPolynomial | sms/src/main/java/org/lab/sms/domain/CommonBean.java:144 | the hash is the base-37 polynomial of the field contributions, reduced to 32 bits once |
| BeanIdentity.WrapThenStep | sms/src/main/java/org/lab/sms/domain/CommonBean.java:144 | wrapping the accumulator before a step does not change the wrapped result |
| BeanIdentity.KeyHashReadsOnlyKeys | sms/src/main/java/org/lab/sms/domain/CommonBean.java:114-148 | the hash depends only on the key values each side can read |
| BeanIdentity.EqualBeansHashEqual | sms/src/main/java/org/lab/sms/domain/CommonBean.java:81-151 | equal beans of one class have equal hash codes, which is the `equals`/`hashCode` contract |
| BeanIdentity.Compare | sms/src/main/java/org/lab/sms/domain/CommonBean.java:160-204 | `compareTo` through the metadata cache returns `CompareTo` and leaves a filled cache unchanged |
| BeanIdentity.CompareLoop | sms/src/main/java/org/lab/sms/domain/CommonBean.java:167-202 | the loop returns the key walk's verdict: both null gives 0, one null gives ±1, then the reflective `compareTo` or the hash fallback |
| BeanIdentity.CompareKeysAntisymmetric | sms/src/main/java/org/lab/sms/domain/CommonBean.java:167-202 | the key walk is antisymmetric whenever the hash fallback meets no tie between unequal values |
| BeanIdentity.CompareToAntisymmetric | sms/src/main/java/org/lab/sms/domain/CommonBean.java:160-204 | under the same proviso `compareTo` is antisymmetric, and it is 0 both ways for equal beans |
| BeanIdentity.CompareKeysDecidedAt | sms/src/main/java/org/lab/sms/domain/CommonBean.java:172-174 | when no earlier field decides, the first field that is null on exactly one side decides: 1 if the receiver's value is the non-null one, -1 if the other's is |
| BeanIdentity.CompareKeysFixedZeroIffEqual | sms/src/main/java/org/lab/sms/domain/CommonBean.java:168-196 | the corrected walk, over ordered key types, is 0 exactly when the keys are equal |
| BeanIdentity.CompareKeysFixedAntisymmetric | sms/src/main/java/org/lab/sms/domain/CommonBean.java:168-196 | the corrected walk is antisymmetric with no proviso |
| BeanIdentity.CompareToFixedConsistent | sms/src/main/java/org/lab/sms/domain/CommonBean.java:160-204 | the corrected `compareTo` is consistent with `equals` and antisymmetric |
| BeanIdentity.PrimitiveKeyHashTie | sms/src/main/java/org/lab/sms/domain/CommonBean.java:188-195 | for long keys 0 and -1 the beans are unequal, yet each compares as less than the other |
| BeanIdentity.LongKeyedUnequal | sms/src/main/java/org/lab/sms/domain/CommonBean.java:81-104 | beans with long keys 0 and -1 are unequal both ways |
| BeanIdentity.LongKeyedMetadata | sms/src/main/java/org/lab/sms/domain/CommonBean.java:306-310 | a class with one key field has exactly that key list |
| BeanRender.FieldText | sms/src/main/java/org/lab/sms/domain/CommonBean.java:222-231 | each piece starts with the field name followed by `=` |
| BeanRender.Joined | sms/src/main/java/org/lab/sms/domain/CommonBean.java:221-232 | the joined text is empty iff there are no fields |
| BeanRender.RenderLoop | sms/src/main/java/org/lab/sms/domain/CommonBean.java:219-232 | the loop builds the comma-separated field texts |
| BeanRender.ToString | sms/src/main/java/org/lab/sms/domain/CommonBean.java:212-235 | `toString` through the metadata cache returns `Render` and leaves a filled cache unchanged |
| BeanRender.JoinedLast | sms/src/main/java/org/lab/sms/domain/CommonBean.java:222 | with two or more fields, the text is the text of the earlier fields, a comma and the last field's text |
| BeanRender.RenderEmpty | sms/src/main/java/org/lab/sms/domain/CommonBean.java:234 | a class with no annotated field renders as its simple name and `()` |
| BeanRender.JoinedReadsOnlyFields | sms/src/main/java/org/lab/sms/domain/CommonBean.java:221-232 | the field text depends only on the listed fields |
| BeanRender.RenderReadsOnlyListedFields | sms/src/main/java/org/lab/sms/domain/CommonBean.java:212-235 | `toString` depends only on the key, required and info fields |
| BeanRender.RenderTwoFields | sms/src/main/java/org/lab/sms/domain/CommonBean.java:212-235 | a bean with two listed fields renders as `Name(f=…,g=…)` |
| BeanRender.JoinedTwo | sms/src/main/java/org/lab/sms/domain/CommonBean.java:222 | two fields are joined by a single comma |
| BeanRender.JoinedOne | sms/src/main/java/org/lab/sms/domain/CommonBean.java:222 | one field gets no separator |
| BeanValidate.CheckLoop | sms/src/main/java/org/lab/sms/domain/CommonBean.java:249-265 | the loop returns the outcome of checking the fields in order, stopping at the first failure |
| BeanValidate.ValidateBean | sms/src/main/java/org/lab/sms/domain/CommonBean.java:243-266 | `validate` through the metadata cache returns `Validate` and leaves a filled cache unchanged |
| BeanValidate.CheckFieldsMeaning | sms/src/main/java/org/lab/sms/domain/CommonBean.java:249-265 | a field list passes iff every field is readable and not null, an empty string or an empty list; otherwise the first such field fails it |
| BeanValidate.ValidateMeaning | sms/src/main/java/org/lab/sms/domain/CommonBean.java:243-266 | a bean passes iff every key and required field is readable and not blank |
| BeanValidate.ValidateIgnoresOtherFields | sms/src/main/java/org/lab/sms/domain/CommonBean.java:245-247 | info fields and unannotated fields never affect `validate` |
| BeanValidate.CheckFieldsSameOutcome | sms/src/main/java/org/lab/sms/domain/CommonBean.java:249-265 | field lists with the same per-field outcomes get the same overall outcome |
| BeanValidate.CheckTwoFields | sms/src/main/java/org/lab/sms/domain/CommonBean.java:249-265 | with two fields, the first one's failure wins |
| DomainBeans.Item.constructor | sms/src/main/java/org/lab/sms/domain/Item.java:13-17 | the three fields hold the arguments |
| DomainBeans.Item.SetProductId | sms/src/main/java/org/lab/sms/domain/Item.java:23-25 | sets the product id and leaves the other fields alone |
| DomainBeans.Item.SetLocationCode | sms/src/main/java/org/lab/sms/domain/Item.java:31-33 | sets the location code and leaves the other fields alone |
| DomainBeans.Item.SetQuantity | sms/src/main/java/org/lab/sms/domain/Item.java:39-41 | sets the quantity and leaves the other fields alone |
| DomainBeans.ItemMetadata | sms/src/main/java/org/lab/sms/domain/Item.java:5-11 | both keys have order 1, so the key list is only `locationCode`; `quantity` is required |
| DomainBeans.ItemEquals | sms/src/main/java/org/lab/sms/domain/Item.java:5-8 | two items are equal exactly when their location codes are |
| DomainBeans.ItemHash | sms/src/main/java/org/lab/sms/domain/Item.java:5-8 | an item's hash is its location code's `String.hashCode`, or 0 when the code is null |
| DomainBeans.ItemValidate | sms/src/main/java/org/lab/sms/domain/Item.java:5-11 | `validate` fails only for a null or empty location code |
| DomainBeans.CheckStringField | sms/src/main/java/org/lab/sms/domain/CommonBean.java:251-256 | a string field fails exactly when it is null or empty |
| DomainBeans.ItemRender | sms/src/main/java/org/lab/sms/domain/Item.java:5-11 | `toString` is `Item(locationCode=…,quantity=…)` |
| DomainBeans.ItemEqualsAnyLocation | sms/src/main/java/org/lab/sms/domain/CommonBean.java:89-100 | an item equals every location, because the location has no `locationCode` property to read |
| DomainBeans.Location.constructor | sms/src/main/java/org/lab/sms/domain/Location.java:10-13 | both fields hold the arguments |
| DomainBeans.Location.SetCode | sms/src/main/java/org/lab/sms/domain/Location.java:19-21 | sets the code and leaves the name alone |
| DomainBeans.Location.SetName | sms/src/main/java/org/lab/sms/domain/Location.java:27-29 | sets the name and leaves the code alone |
| DomainBeans.LocationMetadata | sms/src/main/java/org/lab/sms/domain/Location.java:5-8 | the key list is `code` and the required list is `name` |
| DomainBeans.LocationEquals | sms/src/main/java/org/lab/sms/domain/Location.java:5-6 | two locations are equal exactly when their codes are |
| DomainBeans.LocationCompare | sms/src/main/java/org/lab/sms/domain/CommonBean.java:183-186 | locations with codes compare as `String.compareTo` of the codes, passed through unclamped |
| DomainBeans.LocationCompareUnclamped | sms/src/main/java/org/lab/sms/domain/CommonBean.java:158-186 | `S1` against `S3` gives -2, not the documented -1 |
| DomainBeans.LocationValidate | sms/src/main/java/org/lab/sms/domain/Location.java:5-8 | `validate` reports a null or empty `code` first, then `name` |
| DomainBeans.LocationRender | sms/src/main/java/org/lab/sms/domain/Location.java:5-8 | `toString` is `Location(code=…,name=…)` |
| DomainBeans.ItemKeyCollision | sms/src/main/java/org/lab/sms/domain/Item.java:5-8 | as written, items of different products at one location are equal |
| DomainBeans.ItemFixedMetadata | sms/src/main/java/org/lab/sms/domain/Item.java:5-8 | with orders 1 and 2, the key list is product id then location code |
| DomainBeans.ItemFixedScanKeys | sms/src/main/java/org/lab/sms/domain/CommonBean.java:288-304 | the declared-field loop over the two corrected keys keeps both |
| DomainBeans.ItemFixedEquals | sms/src/main/java/org/lab/sms/domain/Item.java:5-8 | corrected items are equal exactly when both the product id and the location code are |
| DomainBeans.BothNullKeyStopsCompare | sms/src/main/java/org/lab/sms/domain/CommonBean.java:172 | two unequal items without a product id compare as 0 as written, and as -1 with the corrected walk |
| DomainBeans.BothNullWalks | sms/src/main/java/org/lab/sms/domain/CommonBean.java:168-174 | the key walk on those items stops at 0 as written and orders them by location when corrected |
| JavaSplit.AfterComma | sms/src/main/java/org/lab/sms/logic/StockManager.java:81 | the optional white space after a comma ends within the line |
| JavaSplit.MatchAt | sms/src/main/java/org/lab/sms/logic/StockManager.java:81 | a separator match is non-empty and ends within the line |
| JavaSplit.Pieces | sms/src/main/java/org/lab/sms/logic/StockManager.java:81 | splitting always yields at least one piece |
| JavaSplit.DropTrailingEmpty | sms/src/main/java/org/lab/sms/logic/StockManager.java:81 | the result is a prefix, it ends in a non-empty string, and everything dropped is empty |
| JavaSplit.PiecesHaveNoComma | sms/src/main/java/org/lab/sms/logic/StockManager.java:81 | no piece contains a comma |
| JavaSplit.SplitHasNoComma | sms/src/main/java/org/lab/sms/logic/StockManager.java:81 | no field of a line with a comma contains a comma |
| JavaSplit.PiecesAtComma | sms/src/main/java/org/lab/sms/logic/StockManager.java:81 | a comma ahead yields at least two pieces |
| JavaSplit.PiecesSkipPlain | sms/src/main/java/org/lab/sms/logic/StockManager.java:81 | characters that are neither commas nor white space never start a separator |
| JavaSplit.PiecesField | sms/src/main/java/org/lab/sms/logic/StockManager.java:81 | a plain field followed by a bare comma is one piece |
| JavaSplit.SplitThreeFields | sms/src/main/java/org/lab/sms/logic/StockManager.java:81-82 | `a,b,c` of plain non-empty fields splits into exactly `[a, b, c]` |
| JavaSplit.SplitDropsTrailingComma | sms/src/main/java/org/lab/sms/logic/StockManager.java:81-82 | `a,b,c,` also splits into `[a, b, c]`, because trailing empty strings are dropped |
| JavaSplit.SplitWithoutComma | sms/src/main/java/org/lab/sms/logic/StockManager.java:81-82 | a line without a comma is one field, itself |
| JavaSplit.PiecesWithoutComma | sms/src/main/java/org/lab/sms/logic/StockManager.java:81 | with no comma ahead, the rest of the line is one piece |
| JavaSplit.MatchIsSeparator | sms/src/main/java/org/lab/sms/logic/StockManager.java:81 | every match the search finds is a text the pattern `\s?,\s?` matches as a whole |
| JavaSplit.PiecesRejoin | sms/src/main/java/org/lab/sms/logic/StockManager.java:81 | the pieces interleaved with the matched separators give back the line, and every separator matches the pattern |
| Tables.Upsert | sms/src/main/java/org/lab/sms/dataaccess/JdbcStockRepository.java:141-143 | update-else-insert keeps the rows sorted, and its key set is the old key set plus the key |
| Tables.Lookup | sms/src/main/java/org/lab/sms/dataaccess/JdbcStockRepository.java:198-200 | a row is found iff its key is in the table |
| Tables.AsMapKeys | sms/src/main/java/org/lab/sms/dataaccess/JdbcStockRepository.java:113-124 | the table's map has exactly the rows' keys |
| Tables.AsMapPrepend | sms/src/main/java/org/lab/sms/dataaccess/JdbcStockRepository.java:127-131 | a row with a new key adds exactly one map entry |
| Tables.AsMapSorted | sms/src/main/java/org/lab/sms/dataaccess/JdbcStockRepository.java:113-124 | in key-ordered rows each row is exactly its map entry |
| Tables.UpsertAsMap | sms/src/main/java/org/lab/sms/dataaccess/JdbcStockRepository.java:141-143 | update-else-insert is the map update at that key |
| Tables.LookupAsMap | sms/src/main/java/org/lab/sms/dataaccess/JdbcStockRepository.java:198-200 | looking up a key reads the map |
| Tables.StringLessIsOrder | sms/src/main/java/org/lab/sms/dataaccess/JdbcStockRepository.java:115 | `order by id` (as `String.compareTo`) is a strict total order |
| Tables.PairLessIsOrder | sms/src/main/java/org/lab/sms/dataaccess/JdbcStockRepository.java:184 | `order by product_id, location_code` is a strict total order |
| StockStore.StockRepository.constructor | sms/src/main/java/org/lab/sms/dataaccess/StockRepository.java:14-36 | the repository starts with empty tables |
| StockStore.StockRepository.SaveProduct | sms/src/main/java/org/lab/sms/dataaccess/JdbcStockRepository.java:90-93 | the product map gets the id mapped to the name; items are untouched |
| StockStore.StockRepository.SaveItem | sms/src/main/java/org/lab/sms/dataaccess/JdbcStockRepository.java:140-143 | the item map gets the pair mapped to the quantity; products are untouched |
| StockStore.StockRepository.AddQuantity | sms/src/main/java/org/lab/sms/dataaccess/JdbcStockRepository.java:196-205 | adds the delta to an existing row, or inserts the delta as the quantity; it reports one row |
| StockStore.StockRepository.FindAllProducts | sms/src/main/java/org/lab/sms/dataaccess/JdbcStockRepository.java:112-124 | rows in strictly ascending id order, each a product with its name, covering every product |
| StockStore.StockRepository.FindAllItems | sms/src/main/java/org/lab/sms/dataaccess/JdbcStockRepository.java:181-194 | rows in strictly ascending (product, location) order, listing exactly the items |
| StockStore.StockRepository.FindItems | sms/src/main/java/org/lab/sms/dataaccess/JdbcStockRepository.java:163-179 | the same, listing exactly the items of the given products |
| StockStore.ItemRowsMeaning | sms/src/main/java/org/lab/sms/dataaccess/JdbcStockRepository.java:181-194 | the rows of a sorted item table are sorted and list its map |
| StockStore.WhereMeaning | sms/src/main/java/org/lab/sms/dataaccess/JdbcStockRepository.java:168 | `where product_id in (…)` keeps exactly the rows of the listed products, in their order |
| StockLogic.StockManager.constructor | sms/src/main/java/org/lab/sms/logic/StockManager.java:21-25 | the manager works over the given repository |
| StockLogic.StockManager.GetProductMap | sms/src/main/java/org/lab/sms/logic/StockManager.java:126-133 | the map is exactly the repository's products with their names |
| StockLogic.StockManager.SetStockLevels | sms/src/main/java/org/lab/sms/logic/StockManager.java:27-45 | the outcome and the new contents are `SetLevels` of the input, with the product map read once before the loop |
| StockLogic.StockManager.UpdateStockLevels | sms/src/main/java/org/lab/sms/logic/StockManager.java:47-62 | products are untouched; the outcome and the items are `UpdateLevels` of the input |
| StockLogic.StockManager.UpdateStockLines | sms/src/main/java/org/lab/sms/logic/StockManager.java:68-98 | products are untouched; the count or message and the items are `ProcessLines` of the lines |
| StockLogic.StockManager.GetStockLevels | sms/src/main/java/org/lab/sms/logic/StockManager.java:100-112 | one stock per item, in (product, location) order, with the item's quantity and the product's name or "missing" |
| StockLogic.StockManager.GetStockLevelsOf | sms/src/main/java/org/lab/sms/logic/StockManager.java:114-124 | the same, for exactly the items of the listed products |
| StockLogic.StockLevels | sms/src/main/java/org/lab/sms/logic/StockManager.java:105-109 | each row becomes the stock with its name or "missing", in order |
| StockLogic.ListingSize | sms/src/main/java/org/lab/sms/logic/StockManager.java:100-112 | a sorted listing of every item has exactly one row per item |
| StockLogic.DistinctKeysCount | sms/src/main/java/org/lab/sms/dataaccess/JdbcStockRepository.java:184 | rows in strict key order have as many distinct keys as rows |
| StockProperties.SetLevelsFailure | sms/src/main/java/org/lab/sms/logic/StockManager.java:31-35 | fails iff some stock names an unknown product without a name; the message names the first such stock |
| StockProperties.SetLevelsItems | sms/src/main/java/org/lab/sms/logic/StockManager.java:39-40 | on success each (product, location) in the input holds the quantity of the last stock for it |
| StockProperties.SetLevelsOtherItems | sms/src/main/java/org/lab/sms/logic/StockManager.java:39-40 | on success every item not in the input is untouched |
| StockProperties.SetLevelsNewProducts | sms/src/main/java/org/lab/sms/logic/StockManager.java:32-38 | on success a product unknown before the call exists with the name of the last stock for it |
| StockProperties.SetLevelsOtherProducts | sms/src/main/java/org/lab/sms/logic/StockManager.java:32-38 | known products, and products no stock names, are untouched |
| StockProperties.SetLevelsReadsProductsOnce | sms/src/main/java/org/lab/sms/logic/StockManager.java:30-35 | a second stock for a product the same call created must still carry a name |
| StockProperties.UpdateLevelsFailure | sms/src/main/java/org/lab/sms/logic/StockManager.java:51-54 | fails iff some stock names an unknown product; the message names the first one |
| StockProperties.UpdateLevelsAdds | sms/src/main/java/org/lab/sms/logic/StockManager.java:56-57 | on success every item holds its old quantity (0 if new) plus the sum of its deltas, and only pairs from the input are created |
| StockProperties.UpdateLevelsUnknownFirst | sms/src/main/java/org/lab/sms/logic/StockManager.java:52-53 | an unknown first product fails before any delta is added |
| StockProperties.LinesSkipEmpty | sms/src/main/java/org/lab/sms/logic/StockManager.java:76 | the upload behaves exactly as its non-empty lines |
| StockProperties.ProcessGoodLine | sms/src/main/java/org/lab/sms/logic/StockManager.java:76-87 | a line that passes is counted if non-empty and applied, and the upload goes on |
| StockProperties.ProcessBadLine | sms/src/main/java/org/lab/sms/logic/StockManager.java:82-89 | a bad line stops the upload with its message, numbered one past the count |
| StockProperties.LinesSucceed | sms/src/main/java/org/lab/sms/logic/StockManager.java:72-92 | the upload succeeds iff no line is bad, and then it returns the number of non-empty lines |
| StockProperties.LinesFailure | sms/src/main/java/org/lab/sms/logic/StockManager.java:77-89 | a failed upload reports the first bad line, numbered among the non-empty lines |
| StockProperties.FirstBadLineShift | sms/src/main/java/org/lab/sms/logic/StockManager.java:76-77 | a good first line shifts the first bad line by one and counts only if non-empty |
| StockProperties.NonEmptyPrefix | sms/src/main/java/org/lab/sms/logic/StockManager.java:76-77 | the count of non-empty lines in a prefix is the first line's part plus the rest's |
| StockProperties.LineAddsDelta | sms/src/main/java/org/lab/sms/logic/StockManager.java:81-87 | the line `p,q,l` adds `q` to product `p` at location `l` and counts as one line |
| StockProperties.IntToStringPlain | sms/src/main/java/org/lab/sms/logic/StockManager.java:81 | a printed `int` has no comma or white space, so it is one field |
| StockProperties.QuantityMessageNamesLocation | sms/src/main/java/org/lab/sms/logic/StockManager.java:88-89 | as written, a non-numeric quantity is reported with the location code in its brackets |
| StockProperties.QuantityMessageFixedNamesQuantity | sms/src/main/java/org/lab/sms/logic/StockManager.java:88-89 | corrected, the brackets hold the text that failed to parse |
| StockProperties.LineErrorFixedSameVerdict | sms/src/main/java/org/lab/sms/logic/StockManager.java:82-89 | the correction rejects the same lines and changes only the message, and only when the second and third fields differ |

## Left out

- Reflection, `PropertyUtils` and the annotations themselves. A class is described by its declared fields with their annotations. A bean is described by the values its getters return, and a property that cannot be read is absent from that map.
- Floating-point and date text. They come from a `Platform` value rather than being computed. `Float` and `Double` values are held as their bit patterns. In `hashCode`, a `Double` key is skipped, because the source's cast to `Float` throws, and so is a null key.
- The text of the exceptions `PropertyUtils` throws, beyond one case. The model writes the text for an unknown property and treats any unreadable property as unknown.
- Logging (`logger.error`), and the debug print at `StockManager.java:78-80`.
- Concurrent access to the static metadata cache. The cache is modelled as one object, `Registry`, that the operations receive.
- SQL, `JdbcTemplate`, `DataAccessException` and its rewrapping as `StockingException`. The repository is modelled as two in-memory tables. The `order by` clauses are modelled with `String.compareTo` order, not the database collation.
- StockStore.StockRepository.AddQuantity: the quantity column is an unbounded integer, so overflow of the SQL `int` column is not modelled.
- Key types outside the modelled kinds. A key of any other class type (`BigDecimal`, or a user class comparable to itself) is modelled as having no `compareTo` of its own type, so `compareTo` orders it by hash code, where the source would call its `compareTo` reflectively.
- `char` and `Character` keys. There is no such value kind, so neither the `Character.hashCode` contribution nor the `Character.compareTo` order is modelled.
- The order of `Class.getDeclaredFields`. A class's fields are taken in declaration order, which the JVM does not promise. Which of two keys with the same order survives in the key map therefore depends on that order; the lemmas about `Item` assume declaration order.
- Null product ids and null location codes in `Stock` and in the item rows. Only the product name can be null (`Option`).
- `findItems` with an empty id list, which is invalid SQL in the source. The model returns no rows.
- The `Scanner` over the input stream and its UTF-8 decoding. The upload receives the lines as a sequence of strings.
- `@Transactional` rollback. When an operation fails, the model's repository keeps the updates made before the failing element, as the statements leave them before the rollback.
- StockLogic.StockManager.UpdateStockLines: `lineCount` is unbounded, so its 32-bit wrap after 2^31 lines is not modelled.
- `Integer.parseInt` of non-ASCII digits. Only `0`–`9` are digits in the model.
- UTF-16 surrogate pairs. Strings are sequences of `char`.
- The other repository operations: locations, `findProduct`, `findItem`, and the separate `insert`/`update`. `StockManager` does not call them, so only the save, add-quantity and query operations it uses are modelled.
- The Spring wiring, the controllers and the data loader.

## Findings

| source | as written | input that shows it | evidently intended | confidence | as-written member | corrected member |
|---|---|---|---|---|---|---|
| sms/src/main/java/org/lab/sms/domain/Item.java:5-8 | both `@Key` fields take the default order 1, so the key map keeps only one of them: `locationCode` when the fields come in declaration order, `productId` in the reverse order | in declaration order `Item("P1","S1",5).equals(Item("P2","S1",7))` is true; in the reverse order items of one product at two locations are equal instead | product id and location code together identify an item (orders 1 and 2) | not executed | DomainBeans.ItemKeyCollision | DomainBeans.ItemFixedEquals |
| sms/src/main/java/org/lab/sms/domain/CommonBean.java:172 | `compareTo` returns 0 at the first key field that is null on both sides | two items with null product ids at `S1` and `S2` (keys in orders 1, 2): unequal, yet `compareTo` is 0 | skip the field and compare the remaining keys | not executed | DomainBeans.BothNullKeyStopsCompare | BeanIdentity.CompareToFixedConsistent |
| sms/src/main/java/org/lab/sms/domain/CommonBean.java:188-195 | unequal values of a key type without `compareTo` are ordered by hash code, and a tie answers -1 both ways | a `long` key with values 0 and -1: both hash to 0, and each compares below the other | an antisymmetric order consistent with `equals` | not executed | BeanIdentity.PrimitiveKeyHashTie | BeanIdentity.CompareKeysFixedAntisymmetric |
| sms/src/main/java/org/lab/sms/logic/StockManager.java:88-89 | the quantity error shows `values[2]`, the location code | the line `P1,x,S1` fails with `quantity [S1] is invalid` | show `values[1]`, the text that failed to parse | not executed | StockProperties.QuantityMessageNamesLocation | StockProperties.QuantityMessageFixedNamesQuantity |

The upload itself (`StockLogic.StockManager.UpdateStockLines`) keeps the message as written, since the message is what callers of the service receive. The corrected check `StockProperties.LineErrorFixed` rejects exactly the same lines (`StockProperties.LineErrorFixedSameVerdict`). `BeanIdentity.CompareToFixed` replaces only the key walk, and `DomainBeans.ItemBeanFixed` only the key orders.
