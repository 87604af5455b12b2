# Product dashboard and product service, modelled in Dafny

This project models the logic of a small inventory application: a web page
that lists products in a selectable grid and adds, edits and deletes them, and
the server-side service that keeps the products in a keyed store.

- `wrappers.dfy` (module `Wrappers`): `Option` (Java's null, JavaScript's
  undefined) and `Result` (a thrown exception).
- `product.dfy` (module `Products`): the `Product` entity as a class whose
  setters change one field each, its field values as the datatype
  `ProductData`, and the Bean Validation constraints on its fields as the
  predicate `Valid`. `@NotBlank` is modelled the way the reference validator
  checks it, as `trim().length() > 0`, with `String.trim()` dropping leading and
  trailing characters at or below U+0020. The price is an exact `real`.
- `product_service.dfy` (module `ProductStore`): `ProductService` as a class
  over `store: map<int, ProductData>` with an auto-increment counter for the
  generated ids. `repo.save` follows Spring Data's rule: an entity without an
  id is inserted under a new generated id, one whose id is stored overwrites
  that row. `update` loads the stored entity, copies name, price and stock into
  it through the setters and saves it, or fails with "Not found". The pure
  function `UpdateStore` specifies it; the lemmas beside it prove that it keeps
  the stored id, touches no other entry, is idempotent and ignores the id in
  its argument.
- `dashboard.dfy` (module `DashboardPage`): the page's state as the class
  `Dashboard` with the fields `rows`, `loading`, `open`, `editing` and
  `selection` (the selected ids in selection order). Each handler is one atomic
  transition. Whether an HTTP request succeeds, and the list a GET returns, are
  inputs. Each handler returns the requests it issued (`Get`, `Post`, `Put`,
  `Delete`). The object invariant says that the selection has no duplicate and
  that the dialog is never open without a draft.

The page stores the fetched list as it is and does not catch a failed
request, so a failed fetch leaves `loading` set. `onSave` itself checks
nothing: it sends whatever the form submits. The page gates Edit and Delete on
whether the first selected id is truthy, not on the size of the selection.
The object invariant `Dashboard.Valid` is proved to hold after every handler.
The lemma `OpenDialogTitleMatchesSave` uses it.

## Model

| member | source | states |
|---|---|---|
| `Products.Product.constructor` | src/main/java/com/example/backend/product/Product.java:8-14 | a new entity has every field null |
| `Products.Product.Load` | src/main/java/com/example/backend/product/ProductService.java:14 | the entity that `findById` materialises holds exactly the stored row |
| `Products.Product.SetId` | src/main/java/com/example/backend/product/Product.java:16-17 | `setId` changes only the id, and `getId` then returns the value set |
| `Products.Product.SetName` | src/main/java/com/example/backend/product/Product.java:18-19 | `setName` changes only the name, and `getName` then returns the value set |
| `Products.Product.SetPrice` | src/main/java/com/example/backend/product/Product.java:20-21 | `setPrice` changes only the price, and `getPrice` then returns the value set |
| `Products.Product.SetStock` | src/main/java/com/example/backend/product/Product.java:22-23 | `setStock` changes only the stock, and `getStock` then returns the value set |
| `Products.Trim` | src/main/java/com/example/backend/product/Product.java:12 | the trimmed name is the slice of the name left once a prefix and a suffix of characters at or below U+0020 are dropped; it is empty iff every character is at or below U+0020, else it starts and ends with a character above U+0020 |
| `Products.NotBlankMeans` | src/main/java/com/example/backend/product/Product.java:12 | `@NotBlank` holds iff the name is not null and has a character above U+0020 |
| `Products.ValidMeans` | src/main/java/com/example/backend/product/Product.java:12-14 | a Product is valid iff its name is not blank, its price is not null and at least 0, and its stock is not null and at least 0; the id is unconstrained |
| `Products.WhitespaceNameInvalid` | src/main/java/com/example/backend/product/Product.java:12 | a Product whose name is only whitespace is invalid |
| `ProductStore.KeyedRows` | src/main/java/com/example/backend/product/ProductService.java:11 | in a store where every row carries its key as id, a row is stored iff it sits under its own id |
| `ProductStore.KeyedRowCount` | src/main/java/com/example/backend/product/ProductService.java:11 | in such a store there are exactly as many distinct rows as ids |
| `ProductStore.ProductService.constructor` | src/main/java/com/example/backend/product/ProductService.java:9 | the service starts over the injected repository, which may already hold rows, each under its own id, with ids from 1 below the next generated id |
| `ProductStore.ProductService.FindAll` | src/main/java/com/example/backend/product/ProductService.java:11 | `findAll` returns exactly the stored products, each once: as many as there are ids |
| `ProductStore.ProductService.Save` | src/main/java/com/example/backend/product/ProductService.java:12 | `repo.save`: an entity without a stored id is inserted under a fresh generated id, one with a stored id overwrites that row; the store stays keyed by id, with ids from 1 below the counter |
| `ProductStore.ProductService.Create` | src/main/java/com/example/backend/product/ProductService.java:12 | `create(p)` returns the saved entity with p's name, price and stock, stored under its id; without an id, p gets a new server-generated id and nothing else changes |
| `ProductStore.Overwritten` | src/main/java/com/example/backend/product/ProductService.java:15-17 | the updated entity keeps its own id and takes name, price and stock from p |
| `ProductStore.UpdateStore` | src/main/java/com/example/backend/product/ProductService.java:13-20 | `update(id, p)` fails with "Not found" iff id is absent; otherwise the ids are unchanged, the entry at id keeps its stored id and has p's name, price and stock |
| `ProductStore.UpdateFrame` | src/main/java/com/example/backend/product/ProductService.java:14-18 | `update` leaves every entry other than id unchanged |
| `ProductStore.UpdateIdempotent` | src/main/java/com/example/backend/product/ProductService.java:15-18 | applying `update(id, p)` twice gives the store that applying it once gives |
| `ProductStore.UpdateIgnoresPayloadId` | src/main/java/com/example/backend/product/ProductService.java:15-17 | the id carried by p has no effect on `update` |
| `ProductStore.UpdatePreserves` | src/main/java/com/example/backend/product/ProductService.java:14-18 | `update` keeps the store keyed by id, and keeps every stored product valid when p is valid |
| `ProductStore.ProductService.Update` | src/main/java/com/example/backend/product/ProductService.java:13-20 | the method (load, three setters, save) changes the store exactly as `UpdateStore` says, returns the saved entity, and on an absent id returns "Not found" and changes nothing |
| `ProductStore.ProductService.Delete` | src/main/java/com/example/backend/product/ProductService.java:21 | `delete(id)` removes the entry for id, if any, and leaves all others unchanged |
| `DashboardPage.FindRow` | frontend/src/pages/Dashboard.tsx:56 | `rows.find` returns nothing iff no row has the id, and otherwise the first row that has it |
| `DashboardPage.SaveRequest` | frontend/src/pages/Dashboard.tsx:79-91 | Save issues `PUT /products/{id}` iff the edited product is present with a non-zero id, else `POST /products`; the body is the form's name, price and stock, never an id |
| `DashboardPage.Dashboard.constructor` | frontend/src/pages/Dashboard.tsx:13-21 | the page starts with no rows, loading, the dialog closed, no draft and an empty selection |
| `DashboardPage.Dashboard.SelectedId` | frontend/src/pages/Dashboard.tsx:23 | `selectedId` is undefined iff the selection is empty, and otherwise the first id selected |
| `DashboardPage.Dashboard.ActionsEnabled` | frontend/src/pages/Dashboard.tsx:114-115 | Edit and Delete are enabled iff the first selected id exists and is not 0 |
| `DashboardPage.Dashboard.DialogTitle` | frontend/src/pages/Dashboard.tsx:130 | the title is "Edit Product" iff the draft is present with a non-zero id, and "Add Product" otherwise |
| `DashboardPage.Dashboard.SetSelection` | frontend/src/pages/Dashboard.tsx:123 | a selection reported by the grid replaces the selection and nothing else |
| `DashboardPage.Dashboard.FetchData` | frontend/src/pages/Dashboard.tsx:25-31 | `fetchData` issues one GET; on success the rows are replaced wholesale by the response and loading ends; on failure the rows are unchanged and loading stays true |
| `DashboardPage.Dashboard.OnAdd` | frontend/src/pages/Dashboard.tsx:49-52 | from any state, the draft becomes `{id: 0, name: '', price: 0, stock: 0}` and the dialog opens |
| `DashboardPage.Dashboard.OnEdit` | frontend/src/pages/Dashboard.tsx:54-61 | with no selected id, or no row with it, nothing changes; otherwise the draft is the first row with that id and the dialog opens; no request |
| `DashboardPage.Dashboard.OnDelete` | frontend/src/pages/Dashboard.tsx:63-67 | with no selected id, no request and no change; otherwise DELETE for that id, then exactly one refresh iff the delete succeeded |
| `DashboardPage.Dashboard.OnSave` | frontend/src/pages/Dashboard.tsx:69-96 | issues the save request; iff it succeeds, the dialog closes, the draft becomes null and exactly one refresh starts; on failure nothing changes |
| `DashboardPage.Dashboard.Close` | frontend/src/pages/Dashboard.tsx:138 | Cancel, and closing the dialog (line 129), set `open` false and leave the draft, rows, loading flag and selection unchanged |
| `DashboardPage.ZeroSelectionQuirk` | frontend/src/pages/Dashboard.tsx:114-115 | a selected id 0 disables Edit and Delete, yet it passes the handlers' `== null` guard (lines 55, 64) |
| `DashboardPage.ZeroIdDraftIsPosted` | frontend/src/pages/Dashboard.tsx:87-90 | a draft with id 0 is saved with POST and its dialog is titled "Add Product" |
| `DashboardPage.OpenDialogTitleMatchesSave` | frontend/src/pages/Dashboard.tsx:130 | an open dialog always has a draft, and its title is "Edit Product" iff Save issues PUT for the draft's id, "Add Product" iff Save issues POST (lines 87-90) |

## Left out

- Rendering and layout (the JSX, the grid's column definitions, the `₹` price formatter, Dashboard.tsx lines 35-47 and 98-145) are not modelled.
- The mount effect (Dashboard.tsx line 33) runs `FetchData` once when the page is first shown; the model leaves that call to the client of `Dashboard`, whose constructor gives the state before it.
- `DashboardPage.Dashboard.OnSave`: `form` may be any `Payload`. The browser accepts fewer values: all three fields are `required`, and price and stock are number inputs, with stock in whole steps (Dashboard.tsx lines 133-135). It blocks the submit, so `onSave` never runs, when a field is empty or the stock is not a whole number. Whitespace-only names and negative numbers still get through.
- The form's default values (Dashboard.tsx lines 133-135) and the `String(...)`/`Number(...)` coercion of the form fields (lines 80-82) are not modelled: the payload is a typed input, so NaN and fractional stock values from the form do not arise.
- Console logging (Dashboard.tsx lines 28, 73-77, 85) is a side effect only and is left out.
- Concurrency: every handler is one atomic transition whose request outcomes are inputs. Overlapping fetches, saves and deletes, and the order in which their responses arrive, are not modelled.
- A rejected request is not caught by the page. The model keeps only its effect on the state (what the handler had not yet done stays undone); the error itself is not modelled.
- The grid's selection model also has a `type` field, which the page ignores; the model keeps only the ids, as numbers (the grid also allows string ids). Whatever the grid does to the selection when the rows change is the grid's behaviour and is not modelled.
- `Long` ids and `Integer` stock are unbounded `int`s: nothing in the core does arithmetic on them, except the generated id, whose counter is not bounded.
- The repository is a finite map. JPA persistence, transactions and the identity of managed entity objects are not modelled; `create` and `update` take and return field values.
- `ProductStore.ProductService.Save`: saving an entity whose id is set but not stored depends on the persistence provider (an insert under a generated id, or an exception); the model inserts it under a generated id.
- `ProductStore.ProductService.Delete`: deleting an absent id is a no-op, as in Spring Data 3; older versions threw an exception.
- `ProductStore.ProductService.FindAll`: returns a set. The order of the list that `findAll` returns is not modelled.
- The `@Valid` check on the request bodies is done by the controller and the framework, not by the service; the model states only that `update` keeps a valid store valid when given a valid product.
- The login page, the HTTP client configuration, the router, the security configuration and the REST controller are not part of this model.
