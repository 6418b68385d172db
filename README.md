# StormTales shop core in Dafny

This project models the core of the StormTales shop plugin for Craft CMS and
proves properties of that model. The core has three parts.

- **The tag-encoded product hierarchy** (`src/elements/Product.php`).
  - Products are records with a unique SKU.
  - Every relationship is a tag in a generic store, keyed by (group, slug):
    - `sku-<SKU>` names the product itself;
    - `parent-<SKU>` in group `hierarchy` links a variant to its parent;
    - `<type>-<value>` in group `attributes` holds an attribute;
    - `category-<path>` in group `categories` holds a category;
    - any slug in group `system` is a system tag.
  - The product element reads this store (parent SKU, main product or
    variant, variants, descendants, grouped variants, available options,
    label).
  - It also writes to the store: SKU and parent tags on save, categories,
    system tags, `createVariant` and `createVariantMatrix`.
- **The product query builder** (`src/elements/db/ProductQuery.php`).
  - Its fluent setters record criteria.
  - `beforePrepare` turns those criteria into conditions that a product row
    and its tags must all meet.
- **The session cart** (`src/models/CartItem.php`, `src/models/Cart.php`,
  `src/services/CartService.php`).
  - A cart is a list of items, each with an id, a product id, a quantity and
    options.
  - Adding an item merges it into an existing line or appends a new one.
  - Items can be updated or removed by id.
  - The cart gives an item count, a subtotal and a snapshot for the session.

## How the model is built

Modules follow the program's structure:

| module | file | what it holds |
|---|---|---|
| `Wrappers`, `Text` | text.dfy | `Option`; PHP's `strtoupper`, `strtolower`, `ucfirst`, `explode`, `implode`, `str_replace` and string truthiness |
| `Assoc` | assoc.dfy | PHP's ordered arrays with string keys, and `array_merge` |
| `Tags` | tags.dfy | tag groups, and how slugs are built and parsed |
| `Catalog` | catalog.dfy | the `Product` record; `Db`, a snapshot of the store as a value; the read-side queries; the mutable `Store` class |
| `Validation` | validation.dfy | `defineRules` |
| `Pricing` | pricing.dfy | `isInStock`, the price-tier loop, `getTotalStock` |
| `Variation` | variants.dfy | `generateCombinations`, the variant record, price modifiers |
| `Effects` | effects.dfy | specification functions for every store change (save, `ensureParentTag`, `createVariant`, the matrix) and their lemmas |
| `Hierarchy` | hierarchy.dfy | the `getMainProduct` climb and the `getAllDescendants` walk |
| `Attributes` | attributes.dfy | `getVariantsGrouped`, `getAvailableOptions`, `getVariantLabel` |
| `Elements` | elements.dfy | the `ProductElement` class, with its three caches and its imperative methods |
| `Query` | query.dfy | the `ProductQuery` class, its conditions, and `Matches` |
| `Carts` | cart.dfy | the `CartItem` and `Cart` classes |
| `CartServices` | cart_service.dfy | the `CartService` class |

Each imperative method is proved equal to a specification function of the
old state. The lemmas beside that function state what the source promises.

Modelling choices:

- Prices and weights are integer cents and grams.
- Upper- and lower-casing are ASCII, which is what PHP 8.2 and later do.
- Tag ids are positions in the store's tag list.
- Queries return products and relations in the order they were created.
- Ids that `uniqid` would generate are parameters.
- An unsaved product has id 0.

The model follows the code where it is stricter or odder than a reader might
expect:

- **Null stock in the stock filters.** `inStock(false)` compares `stock` in
  SQL. A product that tracks stock, has a null stock and does not allow
  backorder therefore meets neither `inStock(true)` nor `inStock(false)`.
  `Query.InStockFilters` proves exactly one of the two holds only when stock
  is not null.
- **Category paths starting with `0`.** `addToCategory` tests the
  accumulated path with PHP truthiness, so a first segment `"0"` is dropped.
  The last slug it creates for `0/a` is `category-a`, while `inCategories`
  looks up `category-0-a` (`Tags.CategorySlugsDisagree`). For every other
  path the two slugs agree (`Tags.CategorySlugsAgree`).
- **Case in attribute slugs.** `hasAttributes` does not lowercase the
  value, while `addAttributeTagToProduct` does. An attribute value with
  upper-case letters therefore looks up a slug that is never created, and the
  filter for it is dropped (`Tags.AttributeSlugsDiffer`,
  `Query.AttributeFilterWithoutTags`).

## Model

| member | source | states |
|---|---|---|
| Tags.ParentSlugRoundTrip | src/elements/Product.php:226-239 | reading the parent SKU back from the slug `parent-<sku>` that `ensureParentTag` writes gives exactly `sku` |
| Tags.ParentSlugOnly | src/elements/Product.php:226-239 | a hierarchy slug decodes to `sku` only if it is exactly `parent-<sku>` |
| Tags.ParentSkuOfSlug | src/elements/Product.php:232-236 | a slug yields a parent SKU exactly when it starts with `parent-`, and prefix plus SKU spell the slug |
| Tags.AttributeSlugRoundTrip | src/elements/Product.php:622-642 | splitting the slug `<type>-<lower(value)>` at its first dash gives back the dash-free type and the lower-cased value |
| Tags.AttributePairSpec | src/elements/Product.php:1036-1043 | `explode('-', $slug, 2)` has no pair exactly when the slug has no dash; otherwise type, dash and value spell the slug and the type has no dash |
| Tags.CategoryPathsStep | src/elements/Product.php:271-290 | the path loop of `addToCategory`: each step's path is the previous truthy path, a dash and the segment, or the segment alone |
| Tags.CategoryStepSlugAt | src/elements/Product.php:271-290 | the i-th slug `addToCategory` relates is `category-` followed by the i-th accumulated path |
| Tags.CategoryPathsJoin | src/elements/Product.php:271-290 | when the first segment is truthy, the i-th accumulated path is the first i+1 segments joined by dashes |
| Tags.CategorySlugsAgree | src/elements/db/ProductQuery.php:458-477 | when the first segment is truthy, the last slug `addToCategory` creates is the slug `inCategories` looks up for the same path |
| Tags.CategorySlugsDisagree | src/elements/db/ProductQuery.php:462 | for the path `0/a`, `addToCategory` ends at `category-a` and `inCategories` looks up `category-0-a` |
| Tags.AttributeSlugsDiffer | src/elements/db/ProductQuery.php:437-455 | when the value is not already lower case, the `hasAttributes` slug differs from the slug `addAttributeTagToProduct` creates |
| Text.ImplodeExplode | src/elements/Product.php:1236-1243 | imploding an exploded string with the same separator gives the string back |
| Text.ExplodeJoin | src/elements/Product.php:1236-1243 | exploding `a-b` gives the pieces of `a` followed by the pieces of `b` |
| Text.ImplodeExplodeReplace | src/elements/db/ProductQuery.php:462 | `str_replace` of one character equals exploding at it and imploding with the other |
| Text.SplitFirstSpec | src/elements/Product.php:945 | the two-piece split is absent exactly when there is no separator, and otherwise cuts at the first one |
| Text.ExplodeNoSeparator | src/elements/Product.php:1236-1243 | no piece of `explode` contains the separator |
| Text.ImplodeCount | src/elements/Product.php:1236-1243 | joining n dash-free pieces puts exactly n-1 separators in the result |
| Text.FirstIndexOf | src/elements/Product.php:945 | the index found holds the first separator; none is found exactly when there is no separator |
| Assoc.PutGet | src/elements/Product.php:570 | writing key `k` changes what `k` reads and nothing else |
| Assoc.PutKeys | src/elements/Product.php:570 | writing an existing key keeps the key order; writing a new key appends it |
| Assoc.MergeGet | src/elements/Product.php:570 | `array_merge($a, $b)` reads `b`'s value for keys of `b` and `a`'s for the rest |
| Assoc.MergeKeysPrefix | src/elements/Product.php:570 | `array_merge` keeps `a`'s keys first, in order, and its keys are those of `a` and `b` |
| Assoc.PutDistinct | src/elements/Product.php:570 | writing a key keeps the keys distinct |
| Catalog.ParentSku | src/elements/Product.php:226-239 | the corrected `getParentSku`: the SKU after `parent-` of the first hierarchy tag whose slug starts with `parent-`, or none; its partners are `RelateParentGivesParentSku`, `RelateKeepsParentSku` and `AddTagKeepsParentSku` |
| Catalog.ParentSkuAsWritten | src/elements/Product.php:226-239 | `getParentSku` as written, over the first hierarchy tag whose slug contains `parent-%`; its partners are `ParentSkuAsWrittenNeedsPercent` and `RelateParentAsWritten` |
| Catalog.IsMainProduct | src/elements/Product.php:473-476 | a product is main exactly when it has no parent SKU; `MainXorVariant` relates it to `isVariant` |
| Catalog.IsVariant | src/elements/Product.php:481-484 | a product is a variant exactly when it has a parent SKU; `VariantFilterAgrees` relates it to the query filter |
| Catalog.Store.AttachTag | src/elements/Product.php:368-383 | find or create the tag, then relate it: the store stays valid, only grows, and its new view is `Attach` of the old one |
| Catalog.MainXorVariant | src/elements/Product.php:473-484 | `isMainProduct` and `isVariant` are exact negations |
| Catalog.VariantsMembers | src/elements/Product.php:525-544 | a product is a variant of `sku` exactly when it is stored, the tag `parent-<sku>` exists and the product is related to it |
| Catalog.ProductsInMembers | src/elements/Product.php:525-544 | a product is found by `relatedTo` a tag exactly when it is among those searched and related to the tag |
| Catalog.TagsInMembers | src/elements/Product.php:244-254 | a tag is listed for a product and group exactly when it is related to the product and in that group |
| Catalog.FindSkuIn | src/elements/Product.php:1250-1254 | a SKU lookup returns a stored product with that SKU, and returns nothing exactly when no stored product has it |
| Catalog.FindOrCreateIdempotent | src/elements/Product.php:1196-1214 | find-or-create a tag keeps the store well formed, finds the tag it returned, and a second call changes nothing |
| Catalog.AddTagWellFormed | src/elements/Product.php:1207-1213 | creating a missing tag keeps the store well formed, and the new tag is found at the next id |
| Catalog.AddTagKeepsParentSku | src/elements/Product.php:1207-1213 | creating a tag changes no product's parent SKU |
| Catalog.RelateWellFormed | src/elements/Product.php:382-383 | relating a tag keeps the store well formed and adds exactly that relation |
| Catalog.RelateAllWellFormed | src/elements/Product.php:602-617 | relating a list of tags keeps the store well formed, leaves tags and products alone, and adds exactly the relations from the product to those tags |
| Catalog.UnrelateWellFormed | src/elements/Product.php:396-413 | removing a relation keeps the store well formed and the pair is no longer related |
| Catalog.RelateKeepsParentSku | src/elements/Product.php:226-239 | relating a tag outside the hierarchy group changes no product's parent SKU |
| Catalog.RelateParentGivesParentSku | src/elements/Product.php:1251-1266 | relating `parent-<sku>` to a product with no hierarchy tag makes `sku` its parent SKU |
| Catalog.FirstLikeSlugAsWritten | src/elements/Product.php:228-232 | as written, the tag query only ever returns a slug that contains `parent-%` |
| Catalog.ParentSkuAsWrittenNeedsPercent | src/elements/Product.php:226-239 | as written, `getParentSku` returns a SKU only if that SKU contains a `%` |
| Catalog.PercentInParentSku | src/elements/Product.php:231 | the slug `parent-<sku>` contains `parent-%` only if `sku` contains a `%` |
| Catalog.RelateParentAsWritten | src/elements/Product.php:226-239 | relating `parent-<sku>` for a SKU without `%` gives the parent `sku` under the prefix test and no parent as written |
| Catalog.Store.FindOrCreate | src/elements/Product.php:1201-1214 | the store after find-or-create is the specification's, and the tag id names the key |
| Catalog.Store.Link | src/elements/Product.php:382-383 | the new store relates the tag, as the specification says |
| Catalog.Store.LinkAll | src/elements/Product.php:602-617 | the new store relates every tag of the list, in order |
| Catalog.Store.Unlink | src/elements/Product.php:396-413 | the new store is the old one without the relation |
| Catalog.Store.Add | src/elements/Product.php:1156-1180 | a new record gets the next id and is appended |
| Catalog.Store.Update | src/elements/Product.php:1150-1180 | an existing record is replaced in place |
| Catalog.Store.constructor | src/elements/Product.php:1148-1191 | a new store is valid and empty |
| Catalog.InsertWellFormed | src/elements/Product.php:1156-1180 | inserting a product whose SKU is not taken keeps the store well formed |
| Catalog.ReplaceRecordWellFormed | src/elements/Product.php:1150-1180 | replacing an existing record, without taking another product's SKU, keeps the store well formed |
| Validation.NewValidIsFresh | src/elements/Product.php:1132-1146 | a new product that passes the rules has a SKU no stored product has |
| Validation.BrokenRules | src/elements/Product.php:1132-1146 | the rule list, in declaration order, given whether the SKU is taken; `Violations` and `ViolationsAsWritten` differ only in that flag |
| Validation.OnlySkuUniqueLeft | src/elements/Product.php:1132-1146 | with a non-blank SKU and title, non-negative numbers and a listed status, the only rule left to break is SKU uniqueness, under both the corrected `unique` rule and the one as written |
| Validation.ResaveRejectedAsWritten | src/elements/Product.php:1137 | as written, saving a stored product again with its SKU unchanged always breaks the `unique` rule |
| Validation.ResaveKeepsUnique | src/elements/Product.php:1137 | with its own record excluded, saving a stored product again with its SKU unchanged never breaks the `unique` rule |
| Pricing.IsInStock | src/elements/Product.php:1073-1080 | in stock exactly when stock is untracked, the stock is positive, or backorders are allowed; `Query.InStockFilters` relates it to the `inStock` filter |
| Pricing.TierPrice | src/elements/Product.php:1057-1061 | the price after the tier loop; `TierPriceLastMatch` states which tier it is |
| Pricing.TierPriceLastMatch | src/elements/Product.php:1052-1061 | the tier loop gives the base price when no tier applies, and otherwise the price of the last applying tier |
| Pricing.TotalStockBounds | src/elements/Product.php:1085-1104 | a main product that tracks stock totals at least its own stock, and exactly its own stock without variants |
| Pricing.StockSumAppend | src/elements/Product.php:1093-1098 | the variants' stock adds up over any split of the list |
| Pricing.TotalStockAddVariant | src/elements/Product.php:1093-1098 | one more variant raises a main product's total by its stock, or by nothing when its stock is null |
| Pricing.StockSumNonNegative | src/elements/Product.php:1093-1098 | the sum of non-negative variant stocks is non-negative |
| Variation.Generate | src/elements/Product.php:704-719 | `generateCombinations`: one combination per choice of a value for each key from `i` on, each extending `current`; `GenerateExtends` and `CombinationsSpec` state it |
| Variation.CombinationsAreCartesian | src/elements/Product.php:704-719 | with distinct keys, `generateCombinations` equals the Cartesian product with the first key outermost |
| Variation.CombinationsSpec | src/elements/Product.php:704-719 | the number of combinations is the product of the list lengths; zero keys give one empty combination; each combination picks one listed value per key, in key order |
| Variation.CombinationOrder | src/elements/Product.php:704-719 | combination `j·n+t` is the first key's j-th value followed by the t-th combination of the other keys |
| Variation.BindsEveryKey | src/elements/Product.php:704-719 | every combination binds every key |
| Variation.CartesianMembers | src/elements/Product.php:704-719 | a combination is listed exactly when it picks one listed value per key |
| Variation.VariantRecordDerivation | src/elements/Product.php:553-572 | the variant SKU is the parent SKU followed by one upper-cased segment per attribute; price and weight default to the parent's and stock to 0; trackStock, isDigital and description are copied; status is `active`; attributes override the parent's |
| Variation.SkuSuffixSegments | src/elements/Product.php:553-557 | with dash-free values, the variant SKU's dash segments are the parent's followed by one per attribute |
| Variation.MatrixPrice | src/elements/Product.php:677-693 | in both branches the variant price is the parent price plus the combination's modifier sum |
| Variation.OtherModifiersIgnored | src/elements/Product.php:681-687 | modifiers for pairs outside the combination do not change its sum |
| Effects.ParentCandidateOfVariantSku | src/elements/Product.php:1232-1272 | the parent search on `parentSku + suffix` finds `parentSku` exactly when it has at least 3 dash segments, is stored, and no longer SKU prefix names a stored product |
| Effects.ParentCandidateIf | src/elements/Product.php:1232-1272 | the forward direction: a stored 3-segment parent with no shorter stored variant SKU is the candidate |
| Effects.ParentCandidateOnlyIf | src/elements/Product.php:1232-1272 | the converse: when the parent is the candidate, it has at least 3 segments, is stored, and no shorter variant SKU is stored |
| Effects.SearchPrefixLongest | src/elements/Product.php:1240-1268 | the `array_pop` loop finds the longest prefix of at least 3 segments that names a product, and finds none exactly when no such prefix does |
| Effects.CandidatesAreShorter | src/elements/Product.php:1240-1243 | every candidate prefix is shorter than the SKU |
| Effects.SearchIgnoresOwnRecord | src/elements/Product.php:1148-1188 | the new product's own stored record never matches its own prefixes |
| Effects.ParentTagAtMostOne | src/elements/Product.php:1232-1272 | `ensureParentTag` changes nothing without a candidate, and otherwise adds at most one relation, to the tag `parent-<candidate>` |
| Effects.SaveWellFormed | src/elements/Product.php:1148-1191 | saving keeps the store well formed; a save that does not succeed changes nothing; a successful save passed the rules; a new product gets the next id; the save throws exactly when a valid product's id names no record |
| Effects.SaveNewLinksParent | src/elements/Product.php:1148-1191 | after a new product is saved, its parent SKU is the candidate the prefix search finds |
| Effects.SaveExistingKeepsParents | src/elements/Product.php:1150-1188 | saving an existing product changes no parent SKU |
| Effects.SaveAsWrittenNeverLinks | src/elements/Product.php:1148-1227 | as written, no save succeeds: a record that passes the rules ends in a throw, no relation is made and no parent SKU changes |
| Effects.CreateVariantWellFormed | src/elements/Product.php:550-597 | a variant is made exactly when its record validates; a failed variant leaves the store and cache unchanged; a made variant is the derived record with the next id |
| Effects.CreateVariantRecord | src/elements/Product.php:553-576 | a made variant is the derived record with the next id |
| Effects.CreateVariantLinksParent | src/elements/Product.php:574-576 | saving a made variant runs `afterSave`, so its parent SKU is whatever the prefix search finds for its SKU |
| Effects.CreateVariantParentIff | src/elements/Product.php:550-597 | a made variant is linked to its parent exactly when the parent SKU has at least 3 dash segments and no shorter variant SKU names a product |
| Effects.DecorateKeepsParent | src/elements/Product.php:575-596 | attribute, category and system tags added to a variant change no parent SKU |
| Effects.AttachAllRelates | src/elements/Product.php:622-642 | every attribute slug ends up as a tag related to the variant, and nothing related before is lost |
| Effects.InheritRelates | src/elements/Product.php:602-617 | the variant is related to every category tag of the parent |
| Effects.AttachListsTag | src/elements/Product.php:366-391 | after `addSystemTag` the product lists a tag with that slug |
| Effects.DetachSystemDrops | src/elements/Product.php:396-413 | after `removeSystemTag` the product lists no system tag with that slug |
| Effects.AddToCategoryRelates | src/elements/Product.php:271-303 | every accumulated category slug is related to the product and no relation is lost; the variant cache changes only when the product is main |
| Effects.AddToCategoryWellFormed | src/elements/Product.php:271-303 | `addToCategory` keeps the store well formed |
| Effects.MatrixStep | src/elements/Product.php:677-698 | a combination is skipped exactly when its variant would not validate; otherwise its variant is appended |
| Effects.MatrixVariants | src/elements/Product.php:677-698 | each variant made is built from its own combination: parent SKU plus suffix, merged attributes, parent price plus modifiers |
| Effects.MatrixStepMadeFrom | src/elements/Product.php:677-693 | a variant made for one combination carries the parent SKU plus the suffix, the merged attributes and the parent price plus modifiers |
| Effects.MatrixPicked | src/elements/Product.php:677-698 | the variants made come from strictly increasing combination positions, so they are in combination order |
| Effects.MatrixKeepsCache | src/elements/Product.php:588 | once filled, the parent's system-tag cache stays the same through the matrix |
| Effects.MatrixWellFormed | src/elements/Product.php:672-699 | the matrix keeps the store well formed |
| Hierarchy.ParentProductSpec | src/elements/Product.php:489-503 | `getParentProduct` returns a stored product whose SKU is the parent SKU; it returns null exactly for a main product, a falsy parent SKU or a SKU that names no product |
| Hierarchy.ClimbEndsOnMain | src/elements/Product.php:508-520 | a non-null `getMainProduct` result is a main product |
| Hierarchy.ClimbMain | src/elements/Product.php:508-520 | a main product is its own main product |
| Hierarchy.ClimbStep | src/elements/Product.php:508-520 | a variant whose parent is missing yields null; otherwise the climb continues from the parent |
| Hierarchy.ClimbOneLevel | src/elements/Product.php:508-520 | a variant whose parent is main yields that parent |
| Hierarchy.ClimbSelfCycle | src/elements/Product.php:508-520 | a product that is its own parent makes the loop run for ever |
| Hierarchy.ClimbFuel | src/elements/Product.php:508-520 | once the climb finishes, more steps do not change its result |
| Hierarchy.WalkStartsWithQueue | src/elements/Product.php:647-662 | the descendant list starts with `getVariants()`, in order |
| Hierarchy.WalkClosed | src/elements/Product.php:647-662 | every direct variant of a listed product is listed |
| Hierarchy.WalkProvenance | src/elements/Product.php:647-662 | every listed product is a direct variant or a variant of a product listed earlier |
| Hierarchy.WalkOnce | src/elements/Product.php:647-662 | when no product has two parents and the hierarchy is acyclic, no descendant is listed twice |
| Hierarchy.WalkSelfCycle | src/elements/Product.php:647-662 | a product among its own variants makes the walk run for ever (there is no visited set) |
| Hierarchy.WalkFuel | src/elements/Product.php:647-662 | once the walk finishes, more steps do not change its result |
| Attributes.GroupedSpec | src/elements/Product.php:937-957 | the group of type `t` lists each variant once per attribute slug of type `t` it carries, in variant order; a group exists exactly when it is non-empty |
| Attributes.AvailableOptionsSpec | src/elements/Product.php:993-1021 | value `x` is listed under `t` exactly when some in-stock variant has the slug `t-x`; type `t` is present exactly when some in-stock variant has a slug of that type; no value is listed twice |
| Attributes.VariantLabelShape | src/elements/Product.php:1026-1047 | the label starts with the title; a main product or a variant without attribute slugs gets the title alone; otherwise it gets the title and the joined part labels in brackets |
| Attributes.LabelPartsOfAttributeSlugs | src/elements/Product.php:1036-1043 | for slugs built by `addAttributeTagToProduct`, the label parts are `Type: Value` with the value lower-cased and then capitalised |
| Attributes.LabelPartsCount | src/elements/Product.php:1036-1043 | one label part per slug with a dash |
| Elements.ProductElement.constructor | src/elements/Product.php:46-99 | a new element starts with empty caches |
| Elements.ProductElement.GetVariants | src/elements/Product.php:525-544 | returns the cached list, else the products related to `parent-<sku>`, and caches it |
| Elements.ProductElement.GetAttributeTags | src/elements/Product.php:244-254 | returns the cached list, else the product's attribute tags, and caches it |
| Elements.ProductElement.GetSystemTags | src/elements/Product.php:308-318 | returns the cached list, else the product's system tags, and caches it |
| Elements.ProductElement.HasSystemTag | src/elements/Product.php:353-361 | true exactly when some system tag has the slug |
| Elements.ProductElement.EnsureSkuTag | src/elements/Product.php:1196-1227 | the store afterwards relates the product to `sku-<SKU>` |
| Elements.ProductElement.EnsureParentTag | src/elements/Product.php:1232-1272 | the store afterwards is the specification's parent-tag step |
| Elements.ProductElement.Save | src/elements/Product.php:1148-1191 | the store, record and outcome after a save are the specification's |
| Elements.ProductElement.AddSystemTag | src/elements/Product.php:366-391 | relates `system/<slug>`, saves when asked, and clears the system-tag cache |
| Elements.ProductElement.RemoveSystemTag | src/elements/Product.php:396-413 | drops the relation when the tag exists, saves when asked, and clears the cache only then |
| Elements.ProductElement.InheritCategoryTags | src/elements/Product.php:602-617 | the variant receives every category tag of the product |
| Elements.ProductElement.AddAttributeTagToProduct | src/elements/Product.php:622-642 | relates the tag `<type>-<lower(value)>` of group `attributes` |
| Elements.ProductElement.RelateCategoryPaths | src/elements/Product.php:271-290 | relates the category tag of every accumulated path, in order |
| Elements.ProductElement.ShareCategories | src/elements/Product.php:292-301 | gives each variant the product's category tags |
| Elements.ProductElement.AddToCategory | src/elements/Product.php:271-303 | the store and variant cache afterwards are the specification's |
| Elements.ProductElement.VariantSku | src/elements/Product.php:553-557 | the SKU is the parent SKU plus the suffix, and its segments are the parent's plus the upper-cased values |
| Elements.ProductElement.AddAttributeTags | src/elements/Product.php:578-581 | relates every attribute slug of the combination, in order |
| Elements.ProductElement.CopySystemTags | src/elements/Product.php:584-594 | relates to the variant exactly the parent's `price-tier*` and `stock*` system slugs |
| Elements.ProductElement.DecorateVariant | src/elements/Product.php:575-596 | attribute tags, inherited categories and copied system tags, as the specification says |
| Elements.ProductElement.CreateVariant | src/elements/Product.php:550-597 | the store and cache afterwards are the specification's; a new element is returned exactly when the variant was saved |
| Elements.ProductElement.PriceModifier | src/elements/Product.php:681-687 | the modifier loop sums `priceModifiers[type][value]` over the combination |
| Elements.ProductElement.CreateVariantMatrix | src/elements/Product.php:672-699 | the store and the returned variants are the matrix specification's over all combinations |
| Elements.ProductElement.GetMainProduct | src/elements/Product.php:508-520 | the result is the climb's |
| Elements.ProductElement.GetAllDescendants | src/elements/Product.php:647-662 | the result is the walk from `getVariants()` |
| Elements.ProductElement.GetVariantsGrouped | src/elements/Product.php:937-957 | the result is the grouping of the variants |
| Elements.ProductElement.GetAvailableOptions | src/elements/Product.php:993-1021 | the result is the options of the in-stock variants |
| Elements.ProductElement.GetVariantLabel | src/elements/Product.php:1026-1047 | the result is the label built from the attribute slugs; a main product leaves the cache alone |
| Elements.ProductElement.GetFinalPrice | src/elements/Product.php:1052-1068 | the result is the tier price for the quantity |
| Elements.ProductElement.GetTotalStock | src/elements/Product.php:1085-1104 | null without stock tracking; own stock plus every variant's for a main product; own stock for a variant; the variant cache is filled exactly when the variants are read |
| Elements.AddStocks | src/elements/Product.php:1093-1098 | the loop adds every variant's stock, a null stock counting as 0 |
| Query.ProductQuery.constructor | src/elements/db/ProductQuery.php:46-196 | a new query has no criteria, no taxonomy condition and no order |
| Query.ProductQuery.Sku | src/elements/db/ProductQuery.php:46-50 | sets only the SKU criterion and returns the query itself |
| Query.ProductQuery.Price | src/elements/db/ProductQuery.php:55-59 | sets only the price criterion |
| Query.ProductQuery.MinPrice | src/elements/db/ProductQuery.php:64-68 | overwrites the price criterion with `>= value` |
| Query.ProductQuery.MaxPrice | src/elements/db/ProductQuery.php:73-77 | overwrites the price criterion with `<= value` |
| Query.ProductQuery.PriceRange | src/elements/db/ProductQuery.php:82-86 | overwrites the price criterion with the range, so the last price call wins |
| Query.ProductQuery.Stock | src/elements/db/ProductQuery.php:91-95 | sets only the stock criterion |
| Query.ProductQuery.InStock | src/elements/db/ProductQuery.php:100-104 | sets only the in-stock criterion |
| Query.ProductQuery.TrackStock | src/elements/db/ProductQuery.php:109-113 | sets only the track-stock criterion |
| Query.ProductQuery.AllowBackorder | src/elements/db/ProductQuery.php:118-122 | sets only the backorder criterion |
| Query.ProductQuery.Status | src/elements/db/ProductQuery.php:127-131 | sets only the status criterion |
| Query.ProductQuery.IsMainProduct | src/elements/db/ProductQuery.php:136-140 | sets only the main-product criterion |
| Query.ProductQuery.IsVariant | src/elements/db/ProductQuery.php:145-149 | sets only the variant criterion |
| Query.ProductQuery.ParentSku | src/elements/db/ProductQuery.php:154-158 | sets only the parent-SKU criterion |
| Query.ProductQuery.HasAttributes | src/elements/db/ProductQuery.php:164-168 | sets only the attribute criterion |
| Query.ProductQuery.InCategories | src/elements/db/ProductQuery.php:174-178 | sets only the category criterion |
| Query.ProductQuery.HasRating | src/elements/db/ProductQuery.php:183-187 | sets only the rating criterion |
| Query.ProductQuery.MinRating | src/elements/db/ProductQuery.php:192-196 | sets only the minimum-rating criterion |
| Query.ProductQuery.Mythology | src/elements/db/ProductQuery.php:201-222 | adds one condition "related to any found `mythology-<value>` tag", or none if no tag is found |
| Query.ProductQuery.Entity | src/elements/db/ProductQuery.php:227-248 | the same for `entity-<value>` tags |
| Query.ProductQuery.ProductType | src/elements/db/ProductQuery.php:253-265 | the same for the one tag `producttype-<value>` |
| Query.ProductQuery.OrderByPrice | src/elements/db/ProductQuery.php:270-274 | orders by price, descending only for `DESC`, ascending by default |
| Query.ProductQuery.OrderByStock | src/elements/db/ProductQuery.php:279-283 | orders by stock, descending by default |
| Query.ProductQuery.OrderBySku | src/elements/db/ProductQuery.php:288-292 | orders by SKU, ascending by default |
| Query.ProductQuery.OrderByRating | src/elements/db/ProductQuery.php:297-303 | orders by element id, descending by default |
| Query.SortOrder | src/elements/db/ProductQuery.php:270-303 | the column is kept, and the order is descending exactly when the direction is `DESC` |
| Query.ProductQuery.TaxonomyPart | src/elements/db/ProductQuery.php:201-248 | the conditions `mythology` and `entity` add are `TaxonomyCondition`'s: one "related to any" condition over the tags found, none when no tag is found |
| Query.ProductQuery.LookUpTags | src/elements/db/ProductQuery.php:440-451 | the loop keeps, in order, the tag found for each slug, and skips the slugs with no tag |
| Query.ProductQuery.ValuePart | src/elements/db/ProductQuery.php:333-346 | the SKU, price and stock conditions are `ValueConditions`, one per set criterion, in order |
| Query.ProductQuery.StockPart | src/elements/db/ProductQuery.php:348-382 | the in-stock, tracking, backorder and status conditions are `StockConditions`, one per set flag, in order |
| Query.ProductQuery.HierarchyPart | src/elements/db/ProductQuery.php:384-422 | the main-product and variant conditions are `HierarchyConditions`: each skipped when no `parent-*` tag exists |
| Query.ProductQuery.TagPart | src/elements/db/ProductQuery.php:424-477 | the parent-SKU, attribute and category conditions are `TagConditions`: each skipped when its tags are missing |
| Query.ProductQuery.BeforePrepare | src/elements/db/ProductQuery.php:308-491 | the conditions appended are the specification's, in order |
| Query.ConditionsMatch | src/elements/db/ProductQuery.php:308-491 | a product meets every condition exactly when it `Matches` the criteria: columns, hierarchy and tag filters together |
| Query.NoFiltersMatchAll | src/elements/db/ProductQuery.php:308-491 | with no criteria there is no condition and every product matches |
| Query.ValueConditionsMatch | src/elements/db/ProductQuery.php:333-346 | the SKU, price and stock conditions hold exactly when each set criterion holds; a null stock meets no stock criterion |
| Query.StockConditionsMatch | src/elements/db/ProductQuery.php:348-382 | the in-stock, tracking, backorder and status conditions hold exactly when each set flag matches |
| Query.ScalarConditionsMatch | src/elements/db/ProductQuery.php:333-382 | the column conditions all hold exactly when the product meets every set column criterion |
| Query.InStockFilters | src/elements/db/ProductQuery.php:349-367 | `inStock(true)` is `isInStock`; with a non-null stock exactly one of the two filters holds; with a null stock, tracking and no backorder, neither holds |
| Query.HierarchyConditionsMatch | src/elements/db/ProductQuery.php:384-422 | main-product and variant filters mean "not related" or "related" to some `parent-*` tag, and add nothing when no such tag exists |
| Query.VariantFilterAgrees | src/elements/db/ProductQuery.php:404-422 | in a well-formed store, being related to a `parent-*` tag is the same as `isVariant` |
| Query.ParentSkuFilterAgrees | src/elements/db/ProductQuery.php:424-434 | when the tag exists, `parentSku(P)` admits exactly the variants of `P` |
| Query.TagConditionsMatch | src/elements/db/ProductQuery.php:424-477 | parent SKU, attribute and category conditions; tags that do not exist are dropped; attributes are combined with AND, categories with OR |
| Query.FoundAllMatch | src/elements/db/ProductQuery.php:437-455 | the attribute condition holds exactly when the product has every found tag |
| Query.FoundAnyMatch | src/elements/db/ProductQuery.php:458-477 | the category condition holds exactly when the product has some found tag |
| Query.AttributeFilterWithoutTags | src/elements/db/ProductQuery.php:437-455 | when no requested attribute tag exists, `hasAttributes` adds no condition and admits every product |
| Query.CategoryQueryFindsAdded | src/elements/db/ProductQuery.php:458-477 | after `addToCategory(path)` with a truthy first segment, `inCategories([path])` admits the product |
| Query.TaxonomyConditionMatch | src/elements/db/ProductQuery.php:201-265 | the taxonomy condition exists exactly when some tag is found, and holds exactly when the product has one of the found tags |
| Carts.InitialId | src/models/CartItem.php:57-58 | a truthy id is kept; an empty id or `"0"` is replaced by the prefix and a generated id |
| Carts.ItemViolations | src/models/CartItem.php:65-73 | an item breaks no rule exactly when its id is not blank and its quantity is at least 1 |
| Carts.FindEntry | src/models/CartItem.php:78-88 | the product lookup finds only enabled entries |
| Carts.MemoStable | src/models/CartItem.php:93-105 | once memoised, later calls return the same price whatever the catalogue says |
| Carts.PriceWithoutEntry | src/models/CartItem.php:93-105 | the price is 0 when the product is missing or has no price |
| Carts.AsArray | src/models/CartItem.php:118-128 | `toArray` copies id, product id, quantity and options; price is `getPrice()` and subtotal is price times quantity |
| Carts.OptionAfterSet | src/models/CartItem.php:133-144 | after `setOption(k, v)`, `getOption(k)` is `v` and other keys read as before |
| Carts.CartItem.constructor | src/models/CartItem.php:53-60 | the item keeps its fields and gets its id by the `init` rule |
| Carts.CartItem.GetProduct | src/models/CartItem.php:78-88 | returns the cached product, else looks it up and caches it |
| Carts.CartItem.GetPrice | src/models/CartItem.php:93-105 | returns the price and memoises it |
| Carts.CartItem.GetSubtotal | src/models/CartItem.php:110-113 | returns `getPrice()` times the quantity |
| Carts.CartItem.ToArray | src/models/CartItem.php:118-128 | returns the array of the item's state |
| Carts.CartItem.GetOption | src/models/CartItem.php:133-136 | returns the default when the key is unset, else its value |
| Carts.CartItem.SetOption | src/models/CartItem.php:141-144 | writes only that option, which then reads back |
| Carts.Cart.constructor | src/models/Cart.php:36-54 | keeps a non-empty id and generates one otherwise; converts raw items in order, keeps item objects, and builds fresh ones from arrays |
| Carts.Cart.ConvertItems | src/models/Cart.php:44-53 | one item per raw entry, in order |
| Carts.Cart.IsEmpty | src/models/Cart.php:113-116 | `isEmpty` holds exactly when the item list is empty; `EmptyCart` relates it to the count, the subtotal and the arrays |
| Carts.Cart.GetItemCount | src/models/Cart.php:89-96 | the sum of the quantities |
| Carts.Cart.GetSubtotal | src/models/Cart.php:101-108 | the sum of the item subtotals |
| Carts.Cart.ToArray | src/models/Cart.php:72-84 | the same id and metadata, and every item's array in order |
| Carts.SumQuantities | src/models/Cart.php:89-96 | the accumulator loop sums the quantities |
| Carts.SumSubtotals | src/models/Cart.php:101-108 | the accumulator loop sums the subtotals |
| Carts.ItemArrays | src/models/Cart.php:72-84 | the loop lists every item's array in order |
| Carts.MemoAllKeeps | src/models/Cart.php:72-108 | memoising prices changes no count, subtotal or array |
| Carts.EmptyCart | src/models/Cart.php:89-116 | a cart is empty exactly when it has no contents; an empty cart counts 0, totals 0 and lists no arrays; when every quantity is at least 1, a cart is empty exactly when its count is 0 |
| Carts.QuantitySumAtLeastLength | src/models/Cart.php:89-96 | when every quantity is at least 1, the count is at least the number of items |
| Carts.QuantitySumAppend | src/services/CartService.php:123-130 | the count of two joined lists is the sum of their counts |
| CartServices.FirstLine | src/services/CartService.php:48-54 | the first item with the same product id and options, or none exactly when no item matches |
| CartServices.FirstWithId | src/services/CartService.php:76-82 | the first item with the id, or none exactly when no item has it |
| CartServices.AddedSpec | src/services/CartService.php:43-67 | the count grows by exactly `quantity`; a matching line has its quantity raised and every other item is unchanged; otherwise exactly one item is appended at the end |
| CartServices.AddedNoDuplicates | src/services/CartService.php:48-65 | adding keeps every (product id, options) line unique |
| CartServices.AddedValid | src/services/CartService.php:43-67 | adding a positive quantity to valid items keeps them valid |
| CartServices.AddedUnchecked | src/services/CartService.php:43-67 | the quantity is not validated: a new line with quantity below 1 breaks the item rules |
| CartServices.UpdatedSpec | src/services/CartService.php:72-90 | false exactly when no item has the id; a quantity of 0 or less removes the first such item, keeping order; otherwise only its quantity changes |
| CartServices.RemovedSpec | src/services/CartService.php:95-109 | false exactly when no item has the id; otherwise exactly the first such item is removed and the rest keep their order |
| CartServices.UpdatedKeeps | src/services/CartService.php:72-90 | updating keeps lines unique and items valid |
| CartServices.RemovedKeeps | src/services/CartService.php:95-109 | removing keeps lines unique and items valid |
| CartServices.CartService.constructor | src/services/CartService.php:31-38 | the service starts from a loaded cart and a session value |
| CartServices.CartService.SaveCart | src/services/CartService.php:162-167 | the cached cart is the given one and the session holds its `toArray()` |
| CartServices.CartService.FindLine | src/services/CartService.php:48-54 | the loop finds the first merging line |
| CartServices.CartService.FindItem | src/services/CartService.php:76-82 | the loop finds the first item with the id |
| CartServices.CartService.SetQuantity | src/services/CartService.php:83-85 | only that item's quantity changes |
| CartServices.CartService.DropItem | src/services/CartService.php:78-80 | `unset` and `array_values`: the item is removed and the others keep their order |
| CartServices.CartService.AppendItem | src/services/CartService.php:57-64 | the new item is appended at the end |
| CartServices.CartService.MergeOrAppend | src/services/CartService.php:48-64 | the items afterwards are the merge-or-append specification's |
| CartServices.CartService.AddToCart | src/services/CartService.php:43-67 | always true; the cart is the merge-or-append result and the session holds its snapshot |
| CartServices.CartService.UpdateQuantity | src/services/CartService.php:72-90 | true exactly when an item has the id; then the cart is updated and saved, otherwise nothing changes |
| CartServices.CartService.RemoveFromCart | src/services/CartService.php:95-109 | true exactly when an item has the id; then the cart is updated and saved, otherwise nothing changes |
| CartServices.CartService.ChangeQuantity | src/services/CartService.php:78-82 | a quantity of 0 or less removes exactly the matched item; any other quantity replaces only its quantity; ids stay distinct |
| CartServices.CartService.ClearCart | src/services/CartService.php:114-118 | a fresh empty cart is cached and saved |
| CartServices.CartService.GetItemCount | src/services/CartService.php:123-130 | the sum of the quantities |
| CartServices.CartService.GetTotal | src/services/CartService.php:135-142 | the sum of the item subtotals |

## Left out

- Controllers, `PaymentService`, `OrderService`, the install migration, `Shop.php`, the record class and the translations. They handle HTTP, payment APIs, persistence wiring and string tables, not the core.
- The host's query engine. `Db::parseParam` is modelled as equality or a numeric comparison. As written, `minPrice`, `maxPrice` and `priceRange` (src/elements/db/ProductQuery.php:66, 75 and 84) store Yii operator arrays such as `['>=', v]`, `['<=', v]` and `['between', a, b]`, and line 342 hands them to `Db::parseParam`, which reads an array as a list of alternatives; the host calls as written may therefore not compare at all. The model takes the intended comparison; the host's behaviour is not part of this model and nothing here checks it. The raw `LIKE 'parent-%'` of src/elements/db/ProductQuery.php:388 and 408, which pass `false` so the `%` stays a wildcard, is modelled as a prefix test. The escaped pattern of `getParentSku` is a finding below.
- The host's relation service. `saveRelations($element, [$tagId])` and `saveRelations($variant, $tagIds)` (src/elements/Product.php:294, 383, 615, 641, 1225 and 1267) and `deleteRelations` are taken to add and drop that one relation. The host method appears to take the relation field as its first parameter, so the two-argument calls as written may fail or not have this effect. The model takes the intended effect; the service's own signature and behaviour are not part of this model and nothing here checks them.
- How repeated `relatedTo` calls combine. Craft decides that. The model keeps each tag filter, and each taxonomy setter, as a condition of its own, all joined with AND.
- Query.ProductQuery.Mythology: the PHP setter takes `string|array`; the model takes a list, and a single string is the one-element list.
- Query.ProductQuery.Entity: the PHP setter takes `string|array`; the model takes a list, as for `mythology`.
- The SQL that `beforePrepare` emits, and the `relatedTo` calls in the sort setters. The model records each order as a column and a direction.
- `findVariant`. It calls `getProductTags()`, a method the element does not define, and relies on chained `relatedTo` calls.
- The media methods (`getPrimaryImage` through `getVariantThumbnails`). They are asset lookups.
- `getUriFormat`. It depends on `http_build_query`.
- The cross-sell, upsell and bundle lookups (`getRelatedProducts` and its three wrappers). They depend on relation types the model does not hold.
- `getTags`, `getSkuTag`, `getCategoryTags`, `getInternalTags` and `getRelationTags`. These are plain group reads and are already covered by `Catalog.TagsOf`.
- `defineSources`, `defineActions` and display metadata.
- `getTagGroupId`. The group id behind a handle is a `Group` value, so no lookup is modelled.
- Elements.ProductElement.GetFinalPrice: returns the tier price, which is what the method evidently computes. As written, line 1064 configures a `yii\base\Event` with `price` and `quantity`, which `Event` does not declare, so the constructor throws and the method never returns; and had it returned, `$event->data['price']` would not be the configured price either. The `beforeCalculatePrice` hook itself is left out.
- Product images. Product.php reads and writes an `images` property at lines 571 and 1172 that the element does not declare, and the products table (src/migrations/Install.php:50-81) has no `images` column. As written line 571 throws before a variant is saved, line 1172 throws before the record is written, and the column named at src/elements/db/ProductQuery.php:324 is missing from every product query. The record therefore has no images field, and every save, variant and query of the model is the one without those lines.
- Tag titles. Lines 288, 380 and 1212 set a new tag's title; tags in the model are a (group, slug) key with no title.
- Variation.VariantRecordDerivation: the record has no `images` (see Product images) and the attributes are merged with string keys. PHP turns a key such as `"12"` into an integer, and `array_merge` renumbers integer keys instead of letting the new value replace the old one.
- Assoc.MergeGet: keys are strings. For integer-like keys such as `"12"` the PHP `array_merge` appends instead of replacing, which the model does not capture.
- Assoc.MergeKeysPrefix: keys are strings, as for `MergeGet`; with integer-like keys PHP renumbers them.
- Attributes.AvailableOptionsSpec: "no value is listed twice" uses exact string equality. The `in_array` at line 1013 compares loosely, so PHP 8 treats numeric strings such as `"1"` and `"01"` as the same value and lists only the first.
- Elements.ProductElement.GetAvailableOptions: exact equality, as for `AvailableOptionsSpec`.
- Catalog.RelateParentGivesParentSku: states the prefix lookup (the corrected member of the `getParentSku` finding). As written no such relation yields a parent SKU unless the SKU contains a `%`.
- Hierarchy.ParentProductSpec: uses the corrected `getParentSku`; as written almost every product is main, so `getParentProduct` returns null.
- Elements.ProductElement.GetMainProduct: uses the corrected `getParentSku`; as written it returns the product itself.
- Elements.ProductElement.GetVariantLabel: uses the corrected `getParentSku`; as written every product counts as main and the label is the bare title.
- Query.VariantFilterAgrees: relates the query's raw-`LIKE` filter to the corrected `getParentSku`; as written `isVariant` is false almost everywhere, so the two disagree.
- Effects.SaveWellFormed: states the corrected save. As written every save that passes the rules throws (see Findings and Product images).
- Effects.SaveNewLinksParent: the corrected half of the `ensureSkuTag` finding; as written no parent link is ever made (`Effects.SaveAsWrittenNeverLinks`).
- Effects.SaveExistingKeepsParents: states the corrected save, with the corrected `unique` rule.
- Effects.CreateVariantWellFormed: states `createVariant` over the corrected save. As written the save never succeeds, so `createVariant` never returns a variant.
- Effects.CreateVariantRecord: the record has no `images`; over the corrected save.
- Effects.CreateVariantLinksParent: over the corrected save and the corrected `getParentSku`.
- Effects.CreateVariantParentIff: over the corrected save and the corrected `getParentSku`.
- Effects.MatrixStep: over the corrected save. As written the `\Exception` from line 571 is caught at line 694 and every combination is skipped; without line 571, the `\Error` from line 1216 is not caught and ends the matrix at its first valid combination.
- Effects.MatrixVariants: over the corrected save, as for `MatrixStep`.
- Effects.MatrixPicked: over the corrected save, as for `MatrixStep`.
- Elements.ProductElement.Save: the store, record and outcome are the corrected save's, with the corrected `unique` rule.
- Elements.ProductElement.EnsureSkuTag: relates the SKU tag, as the method evidently means to; as written the relation check at line 1216 throws first.
- Elements.ProductElement.AddSystemTag: the save it runs when asked is the corrected one. As written that save fails the `unique` rule for a stored product and so changes nothing.
- Elements.ProductElement.RemoveSystemTag: the save it runs when asked is the corrected one, as for `AddSystemTag`.
- Elements.ProductElement.CreateVariant: over the corrected save, with no `images`.
- Elements.ProductElement.CreateVariantMatrix: over the corrected save; as written see `Effects.MatrixStep`.
- Carts.Cart.constructor: a raw item carries id, product id, quantity and options only. The session snapshot of `CartItem::toArray` (src/models/CartItem.php:118-128) also holds `price` and `subtotal`; as written `new CartItem($item)` at src/models/Cart.php:48 sets those through configuration, and since `price` has only a getter the constructor throws, so a saved cart with items cannot be loaded back.
- Carts.Cart.ConvertItems: raw items without `price` and `subtotal`, as for the constructor.
- Floating point. Prices are integer cents; `getFinalPrice`, `getSubtotal` and `getTotal` return integers.
- Lower- and upper-casing beyond ASCII.
- Randomness. `uniqid` output is a parameter (`entropy`, `uniqid`).
- Concurrency between requests, including find-or-create races.
- CartServices.CartService.constructor: `getCart` and `_loadCart` read the session. The model starts from a cart already loaded, with the session value as a field.
- Carts.Cart.GetSubtotal: requires that no item object appears twice in the cart, so the frame of the price memo is one item per position. The PHP list could hold one object twice.
- Carts.Cart.ToArray: requires distinct item objects, for the same reason.
- CartServices.CartService.GetTotal: requires distinct item objects, for the same reason, through the service invariant.
- Elements.ProductElement.GetMainProduct: takes a ghost step bound and requires that the climb finishes within it. The PHP loop does not terminate on a cyclic parent graph (`Hierarchy.ClimbSelfCycle`).
- Elements.ProductElement.GetAllDescendants: takes a ghost step bound and requires that the walk finishes within it. With no visited set the PHP loop does not terminate on a cycle (`Hierarchy.WalkSelfCycle`).
- The element's caches are one level deep. Caches inside the variant objects that `getVariants` returns are not modelled.
- The host's transaction around `saveElement`. Whether a throw in `afterSave` rolls back the record and the tag written before it is not modelled; `Effects.SaveAsWritten` keeps them, and either way no relation is made.
- Exceptions are outcomes. `createVariant` throwing on a failed save is a variant of `None` with the store unchanged; a missing record id in `afterSave` is the outcome `Thrown`.

## Findings

| source | as written | input that shows it | evidently intended | confidence | as-written member | corrected member |
|---|---|---|---|---|---|---|
| src/elements/Product.php:1216 | `\craft\db\Query()` without `new` calls an undefined function, so every `afterSave` throws `\Error` after the record is written and the SKU tag created; no relation is made and `ensureParentTag` never runs | saving any product that passes the rules, such as a new `ABC-TEE-BASE-RED` under a stored `ABC-TEE-BASE` | `(new \craft\db\Query())`: the SKU tag is related and a new product is linked to its parent | high, not executed | Effects.SaveAsWrittenNeverLinks | Effects.SaveNewLinksParent |
| src/elements/Product.php:231 | the three-operand `like` escapes the `%` and wraps the value in `%...%`, so only slugs containing `parent-%` match; every product whose parent SKU has no `%` counts as main | a variant related to the tag `parent-ABC-TEE-BASE` gets no parent SKU | a prefix match, `['like', 'slug', 'parent-%', false]`, as src/elements/db/ProductQuery.php:388 and 408 write it | high, not executed | Catalog.RelateParentAsWritten | Catalog.RelateParentGivesParentSku |
| src/elements/Product.php:1137 | the `unique` rule with `targetClass` `ProductRecord` runs a plain `exists()`, because the element it validates is not an active record, so it finds the product's own stored record | saving again a stored product with its SKU unchanged, as `addSystemTag($slug, true)` does | exclude the product's own record from the uniqueness check | medium, not executed | Validation.ResaveRejectedAsWritten | Validation.ResaveKeepsUnique |
