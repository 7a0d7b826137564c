# Product catalog controller — Dafny model

This project models `ProductController`, the REST controller of a small product catalog.
The controller lists products (sorted by name, with the purchase price filtered out), fetches one by id,
creates products (refusing a zero sale price), updates and deletes them, and computes a margin report.
It also has a test endpoint that queries products above a fixed price.

The controller has no state of its own, and it hands all persistence to a repository, `ProductDao`.
The repository's implementation is not shown.
The model treats that repository as the answers it gives during one request (`ProductDao.Dao`).
Every handler returns a `Handled` value, which holds:
- the repository calls the handler made, in order (`ProductDao.DaoCall`);
- its response, or the exception it raises (`ProductController.Result`).

"The store is unchanged" is stated as "no `Save` or `Delete` call was made" (`ProductDao.ReadOnly`).

Files:
- `Wrappers.dfy`: `Option`, which stands for a Java reference that may be null.
- `Int32.dfy`: Java `int`, as a 32-bit newtype with the JVM's wrapping subtraction.
- `Decimal.dfy`: decimal rendering of an `int` (as string concatenation and URI expansion write it), and parsing it back.
- `Product.dfy`: the `Product` entity and the list view without `prixAchat`.
- `ProductDao.dfy`: the repository's answers and the calls made to it.
- `ProductController.dfy`: the handlers and the properties proved about them.

The margin report is an imperative method, `CalculerMargeProduit`, that fills a map in a loop the way `calculerMargeProduit` does.
It is proved equal to the reference function `MargeReport`.
The other handlers are straight-line guard-and-return code, so they are functions.

Facts about the code that the model follows:
- The routes are `/Produits`, `/Produits/{id}`, `/AdminProduits` and `test/produits/{prix}`.
- The margin map is keyed by the whole product.
- An empty product collection gives an empty margin report. Only an absent (null) collection raises `AucunProduitEnMagasinException`.

## Model

| member | source | states |
|---|---|---|
| `ProductController.ListeProduits` | src/main/java/com/ecommerce/microcommerce/web/controller/ProductController.java:42-58 | Makes one call, `findAllByOrderByNomAsc`, and raises no exception of its own. It returns one view per product, in the repository's order. Putting back the product's `prixAchat` restores the product, so only `prixAchat` is dropped. |
| `ProductController.ListeProduitsKeepsNameOrder` | src/main/java/com/ecommerce/microcommerce/web/controller/ProductController.java:46-58 | The filtered list has the repository's names in the repository's order, so a name-sorted list stays sorted. |
| `Product.ProjectAll` | src/main/java/com/ecommerce/microcommerce/web/controller/ProductController.java:50-56 | The serialised list has the same length as the product list, and element `i` is the view of product `i`. |
| `Product.ProjectDropsOnlyPrixAchat` | src/main/java/com/ecommerce/microcommerce/web/controller/ProductController.java:50 | The property filter removes `prixAchat` and keeps every other field. |
| `ProductController.AfficherUnProduit` | src/main/java/com/ecommerce/microcommerce/web/controller/ProductController.java:65-73 | Makes one call, `findById(id)`. It fails exactly when the lookup is null, and then raises `ProduitIntrouvable` with a message from which `id` can be read back. Otherwise it returns the found product unchanged. |
| `ProductController.IntrouvableMessageCarriesId` | src/main/java/com/ecommerce/microcommerce/web/controller/ProductController.java:70 | Parsing the not-found message gives back exactly the id it was built from. |
| `ProductController.IntrouvableMessagesDistinguishIds` | src/main/java/com/ecommerce/microcommerce/web/controller/ProductController.java:67-70 | Failed lookups of two different ids raise different errors. |
| `Decimal.IntRoundTrip` | src/main/java/com/ecommerce/microcommerce/web/controller/ProductController.java:70 | Parsing the decimal text of an `int` gives back that `int`. |
| `Decimal.NatToString` | src/main/java/com/ecommerce/microcommerce/web/controller/ProductController.java:70 | The decimal text of a number is non-empty, is all digits, and has no leading zero. |
| `ProductController.AjouterProduit` | src/main/java/com/ecommerce/microcommerce/web/controller/ProductController.java:79-95 | Raises `ProduitGratuit` exactly when `prix == 0`, and then makes no repository call. Otherwise it makes exactly one call, `save(product)`. It answers `noContent` exactly when `save` returns null. |
| `ProductController.AjouterProduitGratuitLeavesStore` | src/main/java/com/ecommerce/microcommerce/web/controller/ProductController.java:82-83 | Refusing a free product leaves the store unchanged. |
| `ProductController.AjouterProduitLocation` | src/main/java/com/ecommerce/microcommerce/web/controller/ProductController.java:83-94 | When `save` returns a product, the response is `created`. Its location starts with `<request path>/`, and its last segment parses to the saved product's id. |
| `ProductController.LastSegmentAfterSlash` | src/main/java/com/ecommerce/microcommerce/web/controller/ProductController.java:88-92 | Appending `/{id}` to a path makes the id's text the last path segment. |
| `ProductController.SupprimerProduit` | src/main/java/com/ecommerce/microcommerce/web/controller/ProductController.java:97-101 | Makes exactly one call, `delete(id)`, with no existence check, and raises no exception of its own. |
| `ProductController.UpdateProduit` | src/main/java/com/ecommerce/microcommerce/web/controller/ProductController.java:103-107 | Makes exactly one call, `save(product)`, ignores what it returns, and raises no exception of its own. |
| `ProductController.UpdateProduitSkipsPriceRule` | src/main/java/com/ecommerce/microcommerce/web/controller/ProductController.java:103-107 | For a zero-price product, update saves it, while create does not. |
| `ProductController.CalculerMargeProduit` | src/main/java/com/ecommerce/microcommerce/web/controller/ProductController.java:113-132 | Makes one call, `findAll`; the loop then builds exactly `MargeReport` of the answer. The map has no more entries than there are products. |
| `ProductController.MargeReportCharacterised` | src/main/java/com/ecommerce/microcommerce/web/controller/ProductController.java:115-126 | The report fails exactly when `findAll` is null. An empty collection gives an empty map. The keys are exactly the products. Each value is `prix - prixAchat` whenever that fits in an `int`. |
| `ProductController.MargesMayBeNegative` | src/main/java/com/ecommerce/microcommerce/web/controller/ProductController.java:121-126 | 1000/700 gives margin 300, and 50/70 gives margin -20: negative margins are not rejected. |
| `ProductController.MargeReportOrderIndependent` | src/main/java/com/ecommerce/microcommerce/web/controller/ProductController.java:121-126 | Two iteration orders of the same products give the same report. |
| `ProductController.MargeReportSize` | src/main/java/com/ecommerce/microcommerce/web/controller/ProductController.java:121-126 | A repeated product overwrites its own entry, so the map has at most one entry per product. It has exactly one per product when the ids are distinct. |
| `Int32.Sub` | src/main/java/com/ecommerce/microcommerce/web/controller/ProductController.java:123 | `prix - prixAchat` in `int` equals the true difference when it fits. It is always congruent to the true difference modulo 2^32. |
| `ProductController.TesteDeRequetes` | src/main/java/com/ecommerce/microcommerce/web/controller/ProductController.java:137-141 | Makes one call, `chercherUnProduitCher(400)`, and returns its answer. |
| `ProductController.TesteDeRequetesIgnoresPrix` | src/main/java/com/ecommerce/microcommerce/web/controller/ProductController.java:138-140 | The test endpoint's result does not depend on its `prix` argument. |
| `ProductController.ReadHandlersLeaveStore` | src/main/java/com/ecommerce/microcommerce/web/controller/ProductController.java:42-73 | Listing, lookup and the test query never call `save` or `delete`. |

## Left out

- Spring routing, dependency injection, `@Valid` bean validation and the Swagger annotations: framework plumbing. The validation rules live on the `Product` class, which is not part of this model.
- `ProductDao`'s implementation (queries, persistence, how `save` assigns ids, name ordering): it is generated by the persistence framework and is not part of this model. Its answers are inputs. So end-to-end properties such as "create, then get, returns the product" are not modelled.
- Exceptions raised inside `ProductDao` (for example `delete` of an absent id, or a failed `save`) pass through every handler unchanged and are not modelled.
- Jackson's filter machinery and JSON output: modelled only as the `ProductView` projection. The JSON rendering of the margin map's product keys is not modelled.
- `ProductController.Location`: the request URI is an opaque string. The URI builder's sanitising of double slashes, its encoding, the scheme and host, and the request's query string (which `fromCurrentRequest()` copies into the location) are not modelled.
- `ProductController.CalculerMargeProduit`: the map is keyed by the `Product` value with structural equality. `Product.equals`/`hashCode` are not part of this model. If they are Java's identity defaults, two equal-valued products would be two keys.
- Null results of `findAllByOrderByNomAsc` and `chercherUnProduitCher`: the controller passes them on unchecked. They are modelled as sequences that are always present.
- HTTP status codes of the three exceptions: their classes are not part of this model.
