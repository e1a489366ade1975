# hello-world-dapp core, modelled in Dafny

This project models the sequential logic of `models/model.js` of the
hello-world dapp, a JavaScript program run inside a decerver/monk runtime:

- **Dispatch** (`dispatch.dfy`): `DappWsAPI`, the websocket request
  dispatcher. It keeps a registry from method names to handler functions.
  `registerMethod` type-checks its arguments; the last registration of a name
  wins. `handle` routes a request `{Method, Id, Params}` to its handler and
  stamps the request's `Method` and `Id` onto the reply. An unknown method
  gives an `E_NO_METHOD` error envelope.
- **Transact** (`transact.dfy`): `DappCore.transact`. It classifies a
  transaction request by which of `recipient`, `data` and `value` are empty:
  create, then transfer, then message, then generic. It makes the matching
  blockchain call (`bc.Script`, `bc.Tx`, `bc.Msg`) and returns a fresh
  `txRecipe` record, or `null` when the call fails.
- **JsText** (`jstext.dfy`): JavaScript `split("\n")` and `trim()`, used to
  turn a message payload into its argument list.
- **Watch** (`watch.dfy`): `watchAcc` / `unwatchAcc` over the address-to-callback
  map, and `newBlock`. `newBlock` scans a block's transactions and fires each
  watched sender, recipient or coinbase at most once per block, using a
  `checked` set.
- **FileStore** (`filestore.dfy`): `writeFile` / `readFile`. These strip or
  restore the two-byte multihash header `1220` (0x12 = sha2-256, 0x20 =
  32-byte digest) and handle the optional `0x` prefix.
- **Wrappers** (`wrappers.dfy`): `Option`, the backend answer
  `Backend = Ok(data) | Err(msg)`, and `Completion = Returned | Threw` for
  JavaScript exceptions.

The backends are parameters, not modelled semantics:

- the blockchain is `ledger: LedgerCall -> Backend<string>`;
- the content store is `push` and `fetch: string -> Backend<string>`;
- a handler's behaviour is `call: (H, Json) -> map<string, Json>`.

Handlers and callbacks are opaque values of a type parameter. A callback
firing is recorded as the address it is watched under.

The source has defects; see "## Findings". The main members model the
evidently intended behaviour. The code as written is modelled beside them
as members whose names end in `AsWritten`:

- line 49 (`this.setSession(sessionObject){`) is a syntax error. The model
  assumes the file parses with `setSession` removed.
- line 70 stores `fn`, which is not defined, instead of `method`.
- line 190 splits the still-undefined `txData` instead of `data`.
- line 290 `for (tx in txs)` iterates array indices, not transactions; its
  `tx` is also an implicit global.
- line 309 looks up `eventCallbacks[cb]` instead of `eventCallbacks[cnb]`.

Behaviour of the code worth knowing:

- a trailing newline in a message payload gives a trailing empty argument
  (`"a\nb\n"` gives `["a", "b", ""]`, see `Transact.MessageArgsKeepsTrailingEmpty`);
- a failed backend call makes `transact` return `null`, not a record with
  `Success = false`;
- `registerMethod` accepts the empty string as a name (it only checks
  `typeof name === "string"`);
- the `Error` field of the record is never set.

## Model

| member | source | states |
|---|---|---|
| Dispatch.Handle | models/model.js:34-46 | unknown method: E_NO_METHOD fault whose message is "No handler for method: " followed by the method name, and no handler invoked; known method: exactly its handler invoked once, and a reply holding the handler's fields plus Method and Id |
| Dispatch.Stamp | models/model.js:43-44 | the stamped reply has the handler's keys plus Method and Id, Method/Id equal the request's, every other field is the handler's |
| Dispatch.HandleEchoesIdentity | models/model.js:42-45 | whatever the handler sets, the reply's Method and Id are the request's, and every other field is present and equal exactly when the handler set it |
| Dispatch.Register | models/model.js:63-71 | non-string name throws TypeError "API method name is not a string" (checked first); non-function throws "API method is not a function"; otherwise the name maps to the new handler and all other entries are unchanged |
| Dispatch.RegisteredHandlerIsInvoked | models/model.js:36-42 | after registering a name, a request for that name invokes the new handler |
| Dispatch.LastRegistrationWins | models/model.js:70 | registering twice under one name leaves only the second handler reachable |
| Dispatch.RegisterKeepsOtherRoutes | models/model.js:63-71 | a registration, successful or throwing, does not change how requests for other methods are handled |
| Dispatch.RegisterAsWritten | models/model.js:63-71 | as written, every registration throws: a TypeError from a failed check, or else a ReferenceError for the unbound `fn` |
| Dispatch.RegisterAsWrittenLosesHandler | models/model.js:70 | as written, "ping" cannot be registered and a "ping" request gets a fault; the corrected registration routes it |
| JsText.Split | models/model.js:177 | split on "\n" gives one piece per newline plus one, no piece contains a newline, and joining the pieces with "\n" gives the input back |
| JsText.SplitJoin | models/model.js:177 | split undoes join on any non-empty list of newline-free pieces |
| JsText.TrimStart | models/model.js:179 | the result is a suffix of the input, everything dropped is white space, and it does not start with white space |
| JsText.TrimEnd | models/model.js:179 | the result is a prefix of the input, everything dropped is white space, and it does not end with white space |
| JsText.Trim | models/model.js:179 | the result is an infix of the input with only white space around it, and neither starts nor ends with white space |
| JsText.TrimIdempotent | models/model.js:179 | trimming twice is trimming once |
| Transact.Classify | models/model.js:157-187 | create iff recipient empty; transfer iff recipient present and data empty; message iff recipient and data present and value empty; generic iff all three present |
| Transact.ClassifyDependsOnlyOnEmptiness | models/model.js:157-187 | inputs with the same pattern of empty fields get the same kind, whatever their contents |
| Transact.MessageArgs | models/model.js:177-180 | one argument per newline plus one, the i-th is the trimmed i-th line, none contains a newline |
| Transact.MessageArgsKeepsTrailingEmpty | models/model.js:177-180 | two trimmed, newline-free lines x and y followed by a newline give the three arguments [x, y, ""], so for example "a\nb\n" gives ["a", "b", ""] |
| Transact.MessageArgsTrimsLines | models/model.js:177-180 | " x \n\ty" gives ["x", "y"] |
| Transact.CallFor | models/model.js:157-187 | no backend call exactly for the generic kind; create deploys data as "lll-literal"; transfer sends value to the recipient; message sends the argument list to the recipient |
| Transact.Transact | models/model.js:147-203 | per kind: failed call gives null; deployment gives Compiled and Success with the address and no hash; transfer or message gives Success with the hash, not Compiled, no address; generic gives the blank record |
| Transact.TransactUsesOnlyItsCall | models/model.js:157-201 | two backends that answer the kind's one call alike give the same result; the generic kind ignores the backend |
| Transact.RecipeRevealsKind | models/model.js:149-202 | in a returned record, Compiled iff create, Success iff a call was made, address only for create, no hash for create, Error always "" |
| Transact.TransactNullIffBackendError | models/model.js:159-184 | null is returned exactly when a call is made and it fails |
| Transact.TransactAsWritten | models/model.js:187-201 | as written, the generic kind throws a TypeError and the other kinds behave as Transact |
| Transact.GenericTransactionThrowsAsWritten | models/model.js:190 | recipient "0x1", value "5", data "code": as written throws, corrected returns the blank record |
| Watch.WatchAcc | models/model.js:211-213 | the address maps to the new callback, replacing any earlier one; other addresses unchanged |
| Watch.UnwatchAcc | models/model.js:217-221 | the address is no longer watched, other entries unchanged, and an unwatched address leaves the map as it was |
| Watch.Addresses | models/model.js:288-314 | the scan visits three addresses per transaction: sender, recipient, coinbase, in transaction order |
| Watch.NotifiedSpec | models/model.js:289-316 | the reference scan fires no address twice, and fires exactly the watched addresses that occur in the block |
| Watch.Visit | models/model.js:291-298 | one step keeps `checked` equal to the addresses visited and the fired list equal to the reference scan of them |
| Watch.NewBlock | models/model.js:285-317 | the fired list equals the reference scan; no address fires twice; an address fires iff it is watched and occurs in the block |
| Watch.DistinctCount | models/model.js:289-297 | a list without repeats holds each element once or not at all, so a checked address fires at most once |
| Watch.WatchedFiresOnce | models/model.js:211-213 | after watchAcc(a, f), one block fires a exactly once if a occurs in it (in any role, any number of times) and never otherwise |
| Watch.UnwatchedNeverFires | models/model.js:217-221 | after unwatchAcc(a), no block fires a |
| Watch.NotifiedOfOne | models/model.js:290-316 | a block of one transaction with three different addresses fires the watched ones among sender, recipient, coinbase, in that order |
| Watch.AddressesAsWritten | models/model.js:290-291 | as written, every key the loop reads is "undefined" |
| Watch.NewBlockAsWritten | models/model.js:288-316 | as written, only the callback under "undefined" can fire, and nothing fires when that key is unwatched |
| Watch.IndexLoopMissesSender | models/model.js:290 | watched sender "0xA": as written nothing fires, corrected fires "0xA" |
| Watch.VisitDirect | models/model.js:291-306 | a sender or recipient step adds the address to `checked`, and fires the address's own callback if it was unchecked and is watched |
| Watch.VisitCoinbaseAsWritten | models/model.js:307-314 | as written, the coinbase step adds the coinbase to `checked` but fires the callback under String(previous callback), not under the coinbase |
| Watch.ScanCoinbaseAsWritten | models/model.js:290-316 | with the loop fixed but the line-309 lookup as written, the scan still checks exactly the block's addresses and fires only watched keys |
| Watch.CoinbaseLookupMissesCoinbase | models/model.js:309 | watched coinbase "0xC" with unwatched sender and recipient: as written nothing fires, corrected fires "0xC" |
| FileStore.ExposedHash | models/model.js:237-238 | starts with "0x"; putting the four dropped header digits back gives the store id; for a native id it is exactly 64 hex digits (32 bytes) |
| FileStore.WriteFile | models/model.js:232-240 | "" on store error; otherwise the non-empty exposed hash of the store's id |
| FileStore.FullId | models/model.js:243-247 | always starts with "0x1220"; the rest is the hash without its first two characters when the second is 'x', else the whole hash |
| FileStore.ReadFile | models/model.js:243-256 | "" when the store errors on the full id, otherwise the block's data |
| FileStore.FullIdIgnoresHexPrefix | models/model.js:244-247 | a hex hash gives the same full id "0x1220" + hash with or without "0x" |
| FileStore.WriteThenReadNamesBlock | models/model.js:228-247 | the hash writeFile returns is 32 bytes of hex, and readFile asks for the written block's own id behind "0x" |
| FileStore.ReadAfterWrite | models/model.js:232-256 | if the store serves a block under its "0x"-prefixed id, readFile(writeFile(x)) == x |
| FileStore.PrefixTestIsSecondCharOnly | models/model.js:244-246 | any two-character prefix ending in 'x' is dropped, and "0X" is kept |

## Left out

- `setSession` and the `session` variable (models/model.js:30, 49-51): a syntax error as written, and no behaviour.
- `balanceAt`, `storageAt`, `storage`, `account` (models/model.js:106-144): single backend reads with a sentinel on error.
- `markdownToPDF` (models/model.js:273-280): a foreign call to the legal-markdown compiler.
- `run` and `events.subscribe` (models/model.js:321-324): event subscription plumbing.
- `HelloWorldDappWs` (models/model.js:331-354): global wiring, and it uses an undefined `TestAPI`.
- The root-contract lookup and `Println` logging (models/model.js:90-95, 158, 168, 176, 189): ambient globals and I/O.
- What `bc.Script`, `bc.Tx`, `bc.Msg`, `ipfs.PushBlockString` and `ipfs.GetBlock` do: each is a parameter that answers `Ok(data)` or `Err(msg)`.
- `network.getWsErrorDetailed` is modelled only as the `Fault(code, message)` envelope it builds.
- Concurrency between watch/unwatch and block notification, and between connections.
- Dispatch.Handle: assumes each handler returns an object. A handler returning `null` or `undefined` would make the stamping throw, and that is not modelled.
- Dispatch.Handle: the registry is a plain map. In JavaScript, names inherited from `Object.prototype` (such as "toString") also pass the `typeof` check, and that is not modelled.
- Dispatch.Register: only "string" and "function" are told apart. Other JavaScript types are all non-strings or non-functions.
- Watch.NewBlock: callbacks are taken to be functions that return normally and do not call `watchAcc` or `unwatchAcc`. In the source, `watchAcc` stores any value but `newBlock` fires only values whose `typeof` is "function" (models/model.js:294, 302, 310). A callback that throws ends the scan. A callback that changes `eventCallbacks` changes the later lookups of the same scan. None of this is modelled.
- Watch.NewBlock: `checked` and `eventCallbacks` are plain maps. In JavaScript, an address equal to a name inherited from `Object.prototype` (such as "toString") already looks checked and never fires. That is not modelled.
- Transact.Transact: all five arguments are taken to be strings. In JavaScript, `=== ""` is false for `undefined` and `null`. So a call that omits `value` takes the generic branch, not the message branch. A non-string `data` in the message branch makes `data.split` throw. Neither is modelled.
- FileStore.FullId: strings are sequences of Unicode code points. JavaScript indexes strings by UTF-16 code units in `hash[1]`, `slice(2)` and `slice(4)`. For a hash with a character outside the Basic Multilingual Plane before index 4, the model and the source pick different characters. Hex hashes, the intended input, are unaffected.
- FileStore.ExposedHash: the same UTF-16 caveat applies to `slice(4)` on the store's id.
- Requests: `Method` is taken to be a string. JavaScript would coerce other values to string keys.
- Watch.NewBlock: only the parts of the block event it reads (`Transactions` with `Sender`, `Recipient`, `Coinbase`) are modelled.
- `gas` and `gascost` of `transact` are accepted and unused, as in the source. The generic branch's intended backend call is commented out in the source.

## Findings

| source | as written | input that shows it | evidently intended | confidence | as-written member | corrected member |
|---|---|---|---|---|---|---|
| models/model.js:70 | `methods[name] = fn` refers to an unbound `fn`, so every well-typed registration throws a ReferenceError | registerMethod("ping", f), then a request for "ping" | `methods[name] = method` | high, not executed | Dispatch.RegisterAsWritten (with Dispatch.RegisterAsWrittenLosesHandler) | Dispatch.Register |
| models/model.js:190 | `var txData = txData.split("\n")` reads the hoisted, still-undefined `txData` and throws a TypeError | transact("0x1", "5", "", "", "code") | split `data`, make no call, return the blank record | high, not executed | Transact.TransactAsWritten (with Transact.GenericTransactionThrowsAsWritten) | Transact.Transact |
| models/model.js:290 | `for (tx in txs)` binds index strings, so every address read is undefined and no real address fires | watched "0xA", block [Tx("0xA", "0xB", "0xC")] | iterate the transactions themselves | high, not executed | Watch.NewBlockAsWritten (with Watch.IndexLoopMissesSender) | Watch.NewBlock |
| models/model.js:309 | `eventCallbacks[cb]` looks up the key String(cb) of the previous lookup, not the coinbase | watched "0xC", block [Tx("0xA", "0xB", "0xC")] | `eventCallbacks[cnb]` | high, not executed | Watch.VisitCoinbaseAsWritten (with Watch.CoinbaseLookupMissesCoinbase) | Watch.NewBlock |
