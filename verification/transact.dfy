/** `DappCore.transact` (models/model.js:147-203): classify a transaction
    request by which of its string fields are empty, make the matching
    blockchain call, and report the outcome in a fresh result record.
    The blockchain backend is the parameter `ledger`, mapping each call to
    the `{Data, Error}` it answers with. */
module Transact {
  import opened Wrappers
  import JsText

  /** The result record `txRecipe`. */
  datatype TxRecipe = TxRecipe(compiled: bool, error: string, success: bool, address: string, hash: string)

  /** The record every call starts from. */
  const Blank := TxRecipe(false, "", false, "", "")

  /** The four transaction kinds, in the order they are tested. */
  datatype Kind = Create | Transfer | Message | Generic

  /** A call on the blockchain backend: `bc.Script(source, lang)` deploys
      a contract (answers with its address); `bc.Tx(to, value)` transfers
      value and `bc.Msg(to, args)` sends a message (both answer with the
      transaction hash). */
  datatype LedgerCall =
    | Script(source: string, language: string)
    | Tx(recipient: string, value: string)
    | Msg(recipient: string, args: seq<string>)

  /** The empty string marks an absent field. The tests run in a fixed order:
      an absent recipient means create, whatever else is given; then absent
      data means transfer; then absent value means message; else generic. */
  function Classify(recipient: string, value: string, data: string): (k: Kind)
    ensures k == Create <==> recipient == ""
    ensures k == Transfer <==> recipient != "" && data == ""
    ensures k == Message <==> recipient != "" && data != "" && value == ""
    ensures k == Generic <==> recipient != "" && data != "" && value != ""
  {
    if recipient == "" then Create
    else if data == "" then Transfer
    else if value == "" then Message
    else Generic
  }

  /** The message arguments: `data` split on newlines, each piece trimmed,
      in order. JavaScript's split keeps empty pieces, so there is one
      argument per newline plus one. */
  function MessageArgs(data: string): (args: seq<string>)
    ensures |args| == JsText.CountOf(data, '\n') + 1
    ensures forall i :: 0 <= i < |args| ==>
              args[i] == JsText.Trim(JsText.Split(data)[i]) && '\n' !in args[i]
  {
    var pieces := JsText.Split(data);
    seq(|pieces|, i requires 0 <= i < |pieces| => JsText.Trim(pieces[i]))
  }

  /** The backend call each kind makes; the generic kind makes none. */
  function CallFor(recipient: string, value: string, data: string): (c: Option<LedgerCall>)
    ensures c.None? <==> Classify(recipient, value, data) == Generic
    ensures c.Some? && c.value.Script? ==> c.value == Script(data, "lll-literal")
    ensures c.Some? && c.value.Tx? ==> c.value == Tx(recipient, value) && data == ""
    ensures c.Some? && c.value.Msg? ==> c.value == Msg(recipient, MessageArgs(data)) && value == ""
  {
    match Classify(recipient, value, data)
    case Create => Some(Script(data, "lll-literal"))
    case Transfer => Some(Tx(recipient, value))
    case Message => Some(Msg(recipient, MessageArgs(data)))
    case Generic => None
  }

  /** `transact(recipient, value, gas, gascost, data)`, with the generic
      branch as evidently intended (it makes no call and returns the blank
      record). A failed backend call gives `null` (None); a deployment gives
      a compiled, successful record carrying the address; a transfer or a
      message gives a successful record carrying the hash. `gas` and
      `gascost` are accepted and unused. */
  function Transact(recipient: string, value: string, gas: string, gascost: string, data: string,
                    ledger: LedgerCall -> Backend<string>): (r: Option<TxRecipe>)
    ensures recipient == "" ==>
              match ledger(Script(data, "lll-literal"))
              case Err(_) => r == None
              case Ok(addr) => r == Some(TxRecipe(true, "", true, addr, ""))
    ensures recipient != "" && data == "" ==>
              match ledger(Tx(recipient, value))
              case Err(_) => r == None
              case Ok(h) => r == Some(TxRecipe(false, "", true, "", h))
    ensures recipient != "" && data != "" && value == "" ==>
              match ledger(Msg(recipient, MessageArgs(data)))
              case Err(_) => r == None
              case Ok(h) => r == Some(TxRecipe(false, "", true, "", h))
    ensures recipient != "" && data != "" && value != "" ==> r == Some(Blank)
  {
    match CallFor(recipient, value, data)
    case None => Some(Blank)
    case Some(call) =>
      match ledger(call)
      case Err(_) => None
      case Ok(v) =>
        if call.Script? then Some(Blank.(address := v, compiled := true, success := true))
        else Some(Blank.(success := true, hash := v))
  }

  /** Classification sees only which fields are empty, never their contents. */
  lemma ClassifyDependsOnlyOnEmptiness(r1: string, v1: string, d1: string, r2: string, v2: string, d2: string)
    requires (r1 == "") == (r2 == "") && (v1 == "") == (v2 == "") && (d1 == "") == (d2 == "")
    ensures Classify(r1, v1, d1) == Classify(r2, v2, d2)
  {
  }

  /** The result depends on the backend only through the one call made for
      the request's kind: two backends that answer that call alike give the
      same result, and the generic kind does not consult the backend. */
  lemma TransactUsesOnlyItsCall(recipient: string, value: string, gas: string, gascost: string, data: string,
                                l1: LedgerCall -> Backend<string>, l2: LedgerCall -> Backend<string>)
    requires match CallFor(recipient, value, data)
             case None => true
             case Some(c) => l1(c) == l2(c)
    ensures Transact(recipient, value, gas, gascost, data, l1) == Transact(recipient, value, gas, gascost, data, l2)
  {
  }

  /** The kind can be read back from a returned record: `compiled` is set
      exactly for a creation, `success` exactly when a call was made, the
      address only by a creation and the hash never by one; `error` is
      never set. */
  lemma RecipeRevealsKind(recipient: string, value: string, gas: string, gascost: string, data: string,
                          ledger: LedgerCall -> Backend<string>)
    ensures var r := Transact(recipient, value, gas, gascost, data, ledger);
            var k := Classify(recipient, value, data);
            r.Some? ==>
              && (r.value.compiled <==> k == Create)
              && (r.value.success <==> k != Generic)
              && (k != Create ==> r.value.address == "")
              && (k == Create ==> r.value.hash == "")
              && r.value.error == ""
  {
  }

  /** `null` is returned exactly when the call made fails. */
  lemma TransactNullIffBackendError(recipient: string, value: string, gas: string, gascost: string, data: string,
                                    ledger: LedgerCall -> Backend<string>)
    ensures Transact(recipient, value, gas, gascost, data, ledger).None? <==>
              (CallFor(recipient, value, data).Some? && ledger(CallFor(recipient, value, data).value).Err?)
  {
  }

  /** A payload with a trailing newline yields a trailing empty argument:
      two lines followed by a newline give three arguments, the last "". */
  lemma MessageArgsKeepsTrailingEmpty(x: string, y: string)
    requires '\n' !in x && '\n' !in y
    requires JsText.Trim(x) == x && JsText.Trim(y) == y
    ensures MessageArgs(x + "\n" + y + "\n") == [x, y, ""]
  {
    TrimEmpty();
    assert x + "\n" + y + "\n" + "" == x + "\n" + y + "\n";
    ArgsOfThreeLines(x, y, "");
  }

  /** Three newline-free lines, each its own trim, are the arguments of
      the payload joining them. */
  lemma ArgsOfThreeLines(x: string, y: string, z: string)
    requires '\n' !in x && '\n' !in y && '\n' !in z
    requires JsText.Trim(x) == x && JsText.Trim(y) == y && JsText.Trim(z) == z
    ensures MessageArgs(x + "\n" + y + "\n" + z) == [x, y, z]
  {
    var data, parts := x + "\n" + y + "\n" + z, [x, y, z];
    SplitThree(x, y, z);
    MessageArgsOfPieces(data, parts);
    ThreeElements(MessageArgs(data), x, y, z);
  }

  lemma ThreeElements(a: seq<string>, x: string, y: string, z: string)
    requires |a| == 3 && a[0] == x && a[1] == y && a[2] == z
    ensures a == [x, y, z]
  {
  }

  /** White space around each line is removed. */
  lemma MessageArgsTrimsLines()
    ensures MessageArgs(" x \n\ty") == ["x", "y"]
  {
    var data, parts := " x \n\ty", [" x ", "\ty"];
    SplitSample(parts, data);
    MessageArgsOfPieces(data, parts);
    TrimSpaced();
    TrimTabbed();
    var args := MessageArgs(data);
    assert args[0] == "x" && args[1] == "y";
  }

  /** The arguments are the trimmed pieces, one by one. */
  lemma MessageArgsOfPieces(data: string, parts: seq<string>)
    requires JsText.Split(data) == parts
    ensures |MessageArgs(data)| == |parts|
    ensures forall i :: 0 <= i < |parts| ==> MessageArgs(data)[i] == JsText.Trim(parts[i])
  {
  }

  /** A line holding one non-space character amid white space trims to
      that character. */
  lemma TrimOneChar(s: string, j: nat)
    requires j < |s| && !JsText.IsJsSpace(s[j])
    requires forall k :: 0 <= k < |s| && k != j ==> JsText.IsJsSpace(s[k])
    ensures JsText.Trim(s) == [s[j]]
  {
    var r, i := JsText.Trim(s), JsText.LeadingSpaces(s);
    assert r[0] == s[i] && r[|r| - 1] == s[i + |r| - 1];
  }

  /** An empty line trims to itself. */
  lemma TrimEmpty()
    ensures JsText.Trim("") == ""
  {
  }

  /** Trimming the sample lines. */
  lemma TrimSpaced()
    ensures JsText.Trim(" x ") == "x"
  {
    TrimOneChar(" x ", 1);
  }

  lemma TrimTabbed()
    ensures JsText.Trim("\ty") == "y"
  {
    TrimOneChar("\ty", 1);
  }

  /** Splitting three newline-free lines joined by newlines. */
  lemma SplitThree(x: string, y: string, z: string)
    requires '\n' !in x && '\n' !in y && '\n' !in z
    ensures JsText.Split(x + "\n" + y + "\n" + z) == [x, y, z]
  {
    var parts := [x, y, z];
    assert parts[1..] == [y, z] && parts[1..][1..] == [z];
    assert JsText.Join([y, z]) == y + "\n" + z;
    assert JsText.Join(parts) == x + "\n" + y + "\n" + z;
    JsText.SplitJoin(parts);
  }

  /** Splitting a sample payload, via its join. */
  lemma SplitSample(parts: seq<string>, s: string)
    requires 1 <= |parts| <= 3 && forall i :: 0 <= i < |parts| ==> '\n' !in parts[i]
    requires s == if |parts| == 1 then parts[0]
                  else if |parts| == 2 then parts[0] + "\n" + parts[1]
                  else parts[0] + "\n" + parts[1] + "\n" + parts[2]
    ensures JsText.Split(s) == parts
  {
    if |parts| == 2 {
      assert parts[1..] == [parts[1]];
    } else if |parts| == 3 {
      assert parts[1..] == [parts[1], parts[2]];
      assert parts[1..][1..] == [parts[2]];
      assert JsText.Join(parts[1..]) == parts[1] + "\n" + parts[2];
    }
    assert JsText.Join(parts) == s;
    JsText.SplitJoin(parts);
  }

  // ---- models/model.js:187-201 as written ----

  /** `transact` as written. The generic branch evaluates
      `var txData = txData.split("\n")`; `txData` is a function-scoped `var`
      (also declared in the message branch) that is still `undefined` here,
      so the call throws a TypeError. The other branches behave as modelled
      by `Transact`. */
  function TransactAsWritten(recipient: string, value: string, gas: string, gascost: string, data: string,
                             ledger: LedgerCall -> Backend<string>): (r: Completion<Option<TxRecipe>>)
    ensures r.Threw? <==> Classify(recipient, value, data) == Generic
    ensures r.Returned? ==> r.value == Transact(recipient, value, gas, gascost, data, ledger)
  {
    if Classify(recipient, value, data) == Generic then
      Threw(TypeError("Cannot read properties of undefined (reading 'split')"))
    else
      Returned(Transact(recipient, value, gas, gascost, data, ledger))
  }

  /** With recipient, value and data all present, the code as written
      throws where the evidently intended code returns the blank record. */
  lemma GenericTransactionThrowsAsWritten(ledger: LedgerCall -> Backend<string>)
    ensures TransactAsWritten("0x1", "5", "", "", "code", ledger).Threw?
    ensures Transact("0x1", "5", "", "", "code", ledger) == Some(Blank)
  {
  }
}
