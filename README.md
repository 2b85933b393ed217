# Product store of the `/produtos` service

This project models the in-memory product store of a small Express service
(`index.js`). The store is a module-level JavaScript array `produtos`, seeded
with one record. Four route handlers read and change it:

- **create** (`POST /produtos`) runs a missing-field gate. It then collects
  every failing field check, and appends a record whose id is the array's
  length plus one.
- **list** (`GET /produtos`) returns the records that are not holes, in slot
  order.
- **update** (`PUT /produtos/:id`) runs its own field checks. It then finds the
  first live slot whose id equals `parseInt(id)` and replaces that slot
  wholesale with a record built from the request.
- **delete** (`DELETE /produtos/:id`) turns the matched slot into a hole
  (`delete produtos[index]`), so the array never shrinks.

The project has three modules:

- `Js` (`js.dfy`) holds the JavaScript semantics the handlers rely on:
  - the values a parsed JSON body can carry;
  - truthiness, and the `length` property;
  - the `isNaN(parseFloat(v))` test;
  - `parseInt` on a route parameter.
- `Validation` (`validation.dfy`) holds the field checks of create and update,
  their messages, and the `"Erro: " + erro.join(", ")` answer.
- `Store` (`store.dfy`) holds the slot array and the class `ProductStore`.
  The class has one method per handler, and the invariant the handlers keep:
  the record in slot i carries id i + 1.

Each handler's outcome is a `Reply`: a status and a payload, or
`ThrewTypeError` for the exception update raises when the body has no
`nome`.

Three behaviours of the code are easy to misread, and the model keeps them
as written:

- **Missing-field gate.** The gate of create tests falsiness (`!nome ||
  !preco || !descricao`), not mere absence. So a price of 0 or an empty
  string fails it. The answer is one fixed message that names no particular
  field.
- **Fresh ids.** A created id can never collide with a live one. Deleting
  leaves a hole and keeps the array's length, so `length + 1` exceeds every
  live id (`CreatedIdIsFresh`).
- **Update with no match.** An id that matches no live slot still answers
  200. The write goes to the array's `"-1"` property and changes no slot.

## Model

| member | source | states |
|---|---|---|
| `Js.Truthy` | index.js:34 | JavaScript truthiness of a body value. `undefined`, `null`, `false`, 0 and the empty string are falsy; every other value is truthy, including empty arrays and objects. |
| `Js.LengthIsZero` | index.js:46 | `v.length === 0` on a non-nullish value. A string or an array compares its length. An object compares its own "length" key with 0. A number or a boolean has no length, so the test is false. |
| `Js.EmptyNonString` | index.js:38 | The `nome` and `descricao` test: the value is not a string and its length is 0. |
| `Js.ParseFloatIsNaN` | index.js:77 | `isNaN(parseFloat(v))`. A number is never NaN. A string is NaN unless it has a numeric prefix after white space. An array reads as its first element, and an empty one as "" (except that an object with its own `toString` key anywhere inside it throws in JavaScript, which the model does not capture; see "Left out"). `undefined`, `null`, booleans and objects are NaN. |
| `Js.NumericStart` | index.js:42 | The start of a decimal literal as `parseFloat` reads it: an optional sign, then a digit, a point followed by a digit, or "Infinity". |
| `Js.HasNumericPrefix` | index.js:77 | `parseFloat` finds a number in a string exactly when, after the leading white space `TrimStart` removes, it starts as `NumericStart` says. |
| `Js.DecimalText` | index.js:57 | `String(n)` for a natural n: a non-empty run of decimal digits, most significant first, which `parseInt` then reads. |
| `Store.Matches` | index.js:91-94 | The `findIndex` callback: a slot matches when it is live and its record's id strictly equals the parsed id. A NaN id matches nothing. |
| `Js.NotNumeric` | index.js:42 | The `preco` test: the value is not a number and `parseFloat` gives NaN. |
| `Js.ParseInt` | index.js:92 | `parseInt(id)` with no radix: skip leading white space, read an optional sign, then the unsigned part; a minus sign negates its result. |
| `Js.ParseUnsigned` | index.js:104 | After the sign, "0x" or "0X" selects base 16 and any other start base 10. The answer is the value of the leading digits, or NaN when there are none. |
| `Validation.Join` | index.js:86 | `xs.join(sep)`: the empty list gives "", and otherwise the items come in order with `sep` between each pair. |
| `Validation.ErrorText` | index.js:51 | The 400 body for failed checks: "Erro: " followed by the messages joined with ", ". |
| `Store.LiveProducts` | index.js:64 | `produtos.filter(prod => prod)`: the records of the live slots, in slot order, never more than the number of slots. |
| `Js.EmptyNonStringExactly` | index.js:38-41 | The check `typeof(v) !== 'string' && v.length === 0` fires exactly on an empty array or on an object whose "length" key is 0. A string of any content passes, and so does any non-string of the wrong type. |
| `Js.TrimStartSpec` | index.js:92 | The white space that `parseInt` skips is exactly a leading run of white-space characters. What remains is the suffix after that run, and it does not start with white space. |
| `Js.ParseFloatSkipsWhiteSpace` | index.js:42 | Leading white space never changes whether `parseFloat` finds a number: the test looks at the text after the run `TrimStart` removes. |
| `Js.NumericTextIsAccepted` | index.js:42 | Text that starts with a run of decimal digits is numeric to `parseFloat`, whatever follows. So is a one-element array holding such text. |
| `Js.DigitPrefixSpec` | index.js:92 | The digits `parseInt` reads are the longest prefix of digits in the radix. Reading stops at the first character that is no digit. |
| `Js.ParseDigits` | index.js:92 | `parseInt` answers NaN exactly when the text after the sign and radix prefix is empty or starts with a non-digit. |
| `Js.DecimalTextValue` | index.js:57 | The decimal numeral of n denotes n. |
| `Js.DecimalTextParses` | index.js:57 | `parseInt` reads the numeral of a natural number back as that number, so `parseInt(novo_id)` is `novo_id`. |
| `Js.ParseIntDecimal` | index.js:92 | `parseInt` reads back the numeral of every integer, negative ones included. So a route id written as a record's id finds that id. |
| `Js.ParseIntSkipsWhiteSpace` | index.js:92 | Leading white space never changes what `parseInt` answers. |
| `Validation.Collect` | index.js:32-49 | The error list contains each failing check exactly once and no passing one, in check order (nome, preco, descricao). |
| `Validation.CreateFieldErrors` | index.js:38-49 | Create reports `nome` iff it is a non-string of length 0, and `preco` iff it is no number and `parseFloat` gives NaN. It reports `descricao` on the same rule as `nome`. |
| `Validation.UpdateFieldErrors` | index.js:73-84 | Update always checks `nome`. It reports `preco` and `descricao` only when they are truthy and fail create's test. |
| `Validation.CollectCreateErrors` | index.js:32-49 | Pushing onto `erro` in handler order builds exactly create's error list. |
| `Validation.CollectUpdateErrors` | index.js:70-84 | Pushing onto `erro` in handler order builds exactly update's error list. |
| `Validation.UpdateChecksAgreeWithCreate` | index.js:73-84 | On a body with three truthy fields, update's checks reject exactly what create's do. |
| `Validation.PermissiveChecks` | index.js:38-48 | Bodies with strings, numbers or booleans for `nome` and `descricao`, and a numeral for `preco`, yield no errors in either handler. |
| `Validation.JoinSnoc` | index.js:51 | Joining one more message onto a non-empty list appends the separator and then that message. |
| `Validation.ErrorTextShapes` | index.js:50-52 | One failing check answers "Erro: " followed by its message. Two or three answer all their messages joined by ", ", in order. |
| `Store.MatchIsPositional` | index.js:90-95 | Under the store invariant, live ids are unique. The only slot the lookup can match is slot id - 1, and it matches exactly when that slot is live. |
| `Store.ListedIffLive` | index.js:64 | A record is listed exactly when some slot holds it. No live record is dropped and no hole is listed. |
| `Store.LiveProductsConcat` | index.js:64 | The listing of two runs of slots placed end to end is the first run's listing followed by the second's. |
| `Store.ListAfterWrite` | index.js:96 | Writing one slot changes the listing only at that slot's place. The records of the slots before and after it are kept, in order. |
| `Store.ListedIdsIncrease` | index.js:56-64 | Under the invariant, the listing is in strictly increasing id order. Every listed id lies between 1 and the array's length. |
| `Store.ListWithoutHoles` | index.js:56-64 | With no holes, the listing holds every record, and the k-th one carries id k + 1. |
| `Store.CreatedIdIsFresh` | index.js:56-58 | The id create hands out, length + 1, belongs to no listed record. Appending any record that carries that id keeps the invariant. |
| `Store.DeleteRemovesFromListing` | index.js:112 | Making a live slot a hole removes exactly its record from the listing. The other records keep their order. |
| `Store.UpdateReplacesInListing` | index.js:96 | Overwriting a slot with a record lists that record at the slot's place, whatever the slot held before. |
| `Store.SecondDeleteMisses` | index.js:102-111 | After the slot of a present id becomes a hole, the invariant still holds and no slot matches that id. So a second delete answers 404. |
| `Store.ProductStore.constructor` | index.js:18-23 | The store starts with one slot, holding record 1 ("notebook", 2499, "Notebook Inspiron 15"), and the invariant holds. |
| `Store.ProductStore.FindIndex` | index.js:90-95 | `findIndex` answers the first slot whose live record has the parsed id, or -1 when no slot matches. |
| `Store.ProductStore.List` | index.js:62-65 | GET answers 200 with the records of the live slots in slot order, built by a loop equal to the `filter`. |
| `Store.ProductStore.Create` | index.js:30-60 | A falsy field answers 400 with the fixed missing-field text, and a failed check answers 400 with every failing message joined. Neither changes the store. Otherwise one slot is appended, holding id length + 1 and the formatted price, and the answer is 201 with that record. Earlier slots are unchanged and the invariant holds. |
| `Store.ProductStore.Update` | index.js:67-98 | A nullish `nome` throws and a failed check answers 400; neither changes the store. Otherwise the present id's slot is replaced by a record built from the request alone, with no merge, or nothing changes when no slot matches. Either way the answer is 200 "Produto ID … atualizado com sucesso". The length is unchanged and the invariant holds. |
| `Store.ProductStore.Overwrite` | index.js:90-96 | The lookup and write of update. The matched slot gets the new record with the parsed id. When nothing matched, no slot changes. |
| `Store.ProductStore.Delete` | index.js:100-114 | An id with no live record answers 404 "Produto com ID … não encontrado." and changes nothing. Otherwise its slot becomes a hole, the other slots and the length are kept, and the answer is 200. |
| `Store.SeedScenario` | index.js:18-114 | From the seed store: creating a mouse answers 201 with record 2. Deleting id 1 first answers 200 "Item deletado com sucesso.", and the second time misses with 404. The listing is then the mouse alone. |

## Left out

- Express setup, JSON body parsing, the logging middleware (its clock and
  `console.log`), the `/` redirect and `app.listen` are I/O and framework
  plumbing. Request bodies enter as `Value`s, and replies leave as `Reply`
  values, not serialised JSON or text.
- `parseFloat(preco).toFixed(2)` is a parameter of the store
  (`toFixed2: Value -> string`) and is not interpreted: the model does not
  state that the stored price has two decimals. Update applies it even when
  `preco` is absent, and so does the model.
- The exception update raises on a nullish `nome` is the outcome
  `ThrewTypeError`. The 500 answer Express then sends is not modelled.
- Update's write to `produtos[-1]` when nothing matches creates a non-index
  property on the array. The model keeps only indexed slots, which that write
  does not touch.
- JSON numbers are modelled as mathematical reals, not IEEE doubles. `parseInt`
  results above 2^53 lose no precision in the model.
- Js.ParseFloatIsNaN: does not model the TypeError `parseFloat` raises when
  the value holds an object with its own `toString` key. The key may sit on
  `preco` itself or on an object at any position or depth inside an array.
  String conversion tries `toString` first, and a JSON value is never
  callable. It then falls back to the inherited `valueOf`, which returns the
  object itself, so the conversion throws. An array converts every element
  for its join, not only the first. In the source, the throw happens in the
  `preco` check (index.js:42, 77): the handler stops and the store is
  unchanged.
  - For a bare object of this kind, the model says NaN and answers 400.
  - For an array that holds one, the model reads only the first element.
    When that element is numeric (`[5, {"toString": 1}]`), the model accepts
    the body. Create then appends a record and update overwrites the matched
    slot, where the source throws and changes nothing.

  An own `valueOf` key alone does not throw: the inherited `toString`
  answers "[object Object]", which is NaN, as the model says.
- Node's single-threaded event loop runs one handler at a time, so no
  interleaving is modelled.
