/** The account watch registry of `DappCore` (models/model.js:211-221) and
    the new-block scan `newBlock` (models/model.js:285-317). Callbacks are
    opaque values of the type parameter `C`; invoking the callback watched
    under an address is recorded by listing that address. */
module Watch {
  import opened Wrappers

  /** The parts of a block transaction the scan reads. */
  datatype Tx = Tx(sender: string, recipient: string, coinbase: string)

  /** `eventCallbacks`: at most one callback per address. */
  type Watches<C> = map<string, C>

  /** No element occurs twice. */
  predicate Distinct(s: seq<string>) {
    forall i, j :: 0 <= i < j < |s| ==> s[i] != s[j]
  }

  /** `watchAcc(addr, cb)`: installs `cb` for `addr`, replacing any earlier
      callback, and leaves every other address as it was. */
  function WatchAcc<C>(w: Watches<C>, addr: string, cb: C): (r: Watches<C>)
    ensures r.Keys == w.Keys + {addr}
    ensures r[addr] == cb
    ensures forall a :: a in w && a != addr ==> r[a] == w[a]
  {
    w[addr := cb]
  }

  /** `unwatchAcc(addr)`: removes the callback for `addr` if there is one;
      on an unwatched address nothing changes. */
  function UnwatchAcc<C>(w: Watches<C>, addr: string): (r: Watches<C>)
    ensures r.Keys == w.Keys - {addr}
    ensures forall a :: a in r ==> r[a] == w[a]
    ensures addr !in w ==> r == w
  {
    if addr in w then w - {addr} else w
  }

  /** The addresses the scan visits, in order: sender, recipient and
      coinbase of each transaction. */
  function Addresses(txs: seq<Tx>): (a: seq<string>)
    ensures |a| == 3 * |txs|
    ensures forall i :: 0 <= i < |txs| ==>
              && a[3 * i] == txs[i].sender
              && a[3 * i + 1] == txs[i].recipient
              && a[3 * i + 2] == txs[i].coinbase
    decreases |txs|
  {
    if txs == [] then []
    else
      var last := txs[|txs| - 1];
      var front := Addresses(txs[..|txs| - 1]);
      assert forall i :: 0 <= i < |txs| - 1 ==> txs[..|txs| - 1][i] == txs[i];
      front + [last.sender, last.recipient, last.coinbase]
  }

  /** Reference definition of the callbacks a scan of `addrs` fires: an
      address fires at its first occurrence, when it is watched. */
  function Notified(watched: set<string>, addrs: seq<string>): seq<string>
    decreases |addrs|
  {
    if addrs == [] then []
    else
      var front, a := addrs[..|addrs| - 1], addrs[|addrs| - 1];
      if a in watched && a !in front then Notified(watched, front) + [a]
      else Notified(watched, front)
  }

  /** The reference fires each watched address that occurs, once, and
      nothing else. */
  lemma {:induction false} NotifiedSpec(watched: set<string>, addrs: seq<string>)
    ensures Distinct(Notified(watched, addrs))
    ensures forall a :: a in Notified(watched, addrs) <==> a in watched && a in addrs
    decreases |addrs|
  {
    if addrs != [] {
      var front, a := addrs[..|addrs| - 1], addrs[|addrs| - 1];
      NotifiedSpec(watched, front);
      assert addrs == front + [a];
    }
  }

  /** Visiting one more address. */
  lemma NotifiedSnoc(watched: set<string>, addrs: seq<string>, a: string)
    ensures Notified(watched, addrs + [a]) ==
              if a in watched && a !in addrs then Notified(watched, addrs) + [a]
              else Notified(watched, addrs)
  {
  }

  /** One step of the scan (models/model.js:291-298): an address not yet
      checked in this block fires its callback if watched, and becomes
      checked. `seen` is the ghost list of addresses visited so far. */
  method Visit<C>(w: Watches<C>, checked: set<string>, fired: seq<string>, ghost seen: seq<string>, a: string)
    returns (checked': set<string>, fired': seq<string>)
    requires forall x :: x in checked <==> x in seen
    requires fired == Notified(w.Keys, seen)
    ensures forall x :: x in checked' <==> x in seen + [a]
    ensures fired' == Notified(w.Keys, seen + [a])
  {
    NotifiedSnoc(w.Keys, seen, a);
    checked', fired' := checked, fired;
    if a !in checked {
      if a in w {
        fired' := fired + [a];
      }
      checked' := checked + {a};
    }
  }

  /** `newBlock(event)` as evidently intended: walks the block's
      transactions and, for each sender, recipient and coinbase not seen
      earlier in this block, fires the callback watched under it. Returns
      the addresses whose callbacks fired, in firing order. */
  method NewBlock<C>(w: Watches<C>, txs: seq<Tx>) returns (fired: seq<string>)
    ensures fired == Notified(w.Keys, Addresses(txs))
    ensures Distinct(fired)
    ensures forall a :: a in fired <==> a in w && a in Addresses(txs)
  {
    var checked: set<string> := {};
    fired := [];
    var i := 0;
    while i < |txs|
      invariant 0 <= i <= |txs|
      invariant forall a :: a in checked <==> a in Addresses(txs[..i])
      invariant fired == Notified(w.Keys, Addresses(txs[..i]))
    {
      var tx := txs[i];
      ghost var seen := Addresses(txs[..i]);
      assert txs[..i + 1][..i] == txs[..i];
      assert Addresses(txs[..i + 1]) == seen + [tx.sender] + [tx.recipient] + [tx.coinbase];

      checked, fired := Visit(w, checked, fired, seen, tx.sender);
      checked, fired := Visit(w, checked, fired, seen + [tx.sender], tx.recipient);
      checked, fired := Visit(w, checked, fired, seen + [tx.sender] + [tx.recipient], tx.coinbase);
      i := i + 1;
    }
    assert txs[..|txs|] == txs;
    NotifiedSpec(w.Keys, Addresses(txs));
  }

  /** A distinct list holds each element at most once. */
  lemma {:induction false} DistinctCount(s: seq<string>, a: string)
    requires Distinct(s)
    ensures multiset(s)[a] == if a in s then 1 else 0
    decreases |s|
  {
    if s != [] {
      assert s == [s[0]] + s[1..];
      DistinctCount(s[1..], a);
    }
  }

  /** After `watchAcc(a, f)`, one block fires `f` exactly once if `a`
      occurs in it (however often, in whatever role) and never otherwise. */
  lemma WatchedFiresOnce<C>(w: Watches<C>, a: string, f: C, txs: seq<Tx>)
    ensures var fired := Notified(WatchAcc(w, a, f).Keys, Addresses(txs));
            multiset(fired)[a] == if a in Addresses(txs) then 1 else 0
  {
    var fired := Notified(WatchAcc(w, a, f).Keys, Addresses(txs));
    NotifiedSpec(WatchAcc(w, a, f).Keys, Addresses(txs));
    DistinctCount(fired, a);
  }

  /** After `unwatchAcc(a)`, no block fires a callback for `a`. */
  lemma UnwatchedNeverFires<C>(w: Watches<C>, a: string, txs: seq<Tx>)
    ensures a !in Notified(UnwatchAcc(w, a).Keys, Addresses(txs))
  {
    NotifiedSpec(UnwatchAcc(w, a).Keys, Addresses(txs));
  }

  // ---- models/model.js:290 as written ----

  /** `for (tx in txs)` binds `tx` to the array's index strings, not to the
      transactions; `tx.Sender`, `tx.Recipient` and `tx.Coinbase` of a
      string are `undefined`, which as an object key reads "undefined". */
  function AddressesAsWritten(txs: seq<Tx>): (a: seq<string>)
    ensures |a| == 3 * |txs|
    ensures forall i :: 0 <= i < |a| ==> a[i] == "undefined"
  {
    seq(3 * |txs|, _ => "undefined")
  }

  /** `newBlock` as written: the scan visits only the key "undefined" (the
      coinbase lookup of line 309 never runs, since that key is already
      checked by then), so at most the callback watched under "undefined"
      fires and no real address ever does. */
  function NewBlockAsWritten<C>(w: Watches<C>, txs: seq<Tx>): (fired: seq<string>)
    ensures forall a :: a in fired ==> a == "undefined"
    ensures "undefined" !in w ==> fired == []
  {
    NotifiedSpec(w.Keys, AddressesAsWritten(txs));
    NoMembersIsEmpty(Notified(w.Keys, AddressesAsWritten(txs)), "undefined");
    Notified(w.Keys, AddressesAsWritten(txs))
  }

  /** The intended scan of a single transaction `Tx(a, b, c)` with
      pairwise different addresses. */
  lemma NotifiedOfOne(watched: set<string>, a: string, b: string, c: string)
    requires a != b && b != c && a != c
    ensures Notified(watched, Addresses([Tx(a, b, c)])) ==
              (if a in watched then [a] else []) + (if b in watched then [b] else []) + (if c in watched then [c] else [])
  {
    var txs := [Tx(a, b, c)];
    assert txs[..0] == [];
    assert Addresses(txs) == [a, b] + [c];
    NotifiedSnoc(watched, [], a);
    assert [] + [a] == [a];
    var n1 := Notified(watched, [a]);
    assert n1 == if a in watched then [a] else [];
    NotifiedSnoc(watched, [a], b);
    assert [a] + [b] == [a, b];
    var n2 := Notified(watched, [a, b]);
    assert n2 == n1 + (if b in watched then [b] else []);
    NotifiedSnoc(watched, [a, b], c);
    assert c !in [a, b];
  }

  /** A list all of whose elements equal `x` is empty when `x` is not in it. */
  lemma NoMembersIsEmpty(s: seq<string>, x: string)
    requires forall a :: a in s ==> a == x
    ensures x !in s ==> s == []
  {
    if s != [] {
      assert s[0] in s;
    }
  }

  /** A watched sender fires under the intended scan but not as written. */
  lemma IndexLoopMissesSender<C>(f: C)
    ensures var w, txs := map["0xA" := f], [Tx("0xA", "0xB", "0xC")];
            && NewBlockAsWritten(w, txs) == []
            && Notified(w.Keys, Addresses(txs)) == ["0xA"]
  {
    var w, txs := map["0xA" := f], [Tx("0xA", "0xB", "0xC")];
    NotifiedOfOne(w.Keys, "0xA", "0xB", "0xC");
    var asWritten := NewBlockAsWritten(w, txs);
    NotifiedSpec(w.Keys, AddressesAsWritten(txs));
  }

  // ---- models/model.js:307-314 as written ----

  /** The scan state the as-written loop keeps: the `checked` set, the
      hoisted `var cb` (the last callback looked up) and the keys whose
      callbacks fired. */
  datatype ScanState<C> = ScanState(checked: set<string>, cb: Option<C>, fired: seq<string>)

  function Lookup<C>(w: Watches<C>, key: string): Option<C> {
    if key in w then Some(w[key]) else None
  }

  /** `String(cb)` used as an object key: "undefined", or the function's
      source text, which is the parameter `show`. */
  function KeyOf<C>(cb: Option<C>, show: C -> string): string {
    match cb
    case None => "undefined"
    case Some(c) => show(c)
  }

  /** One sender or recipient step: an unchecked address looks up its own
      callback and fires it. */
  function VisitDirect<C>(w: Watches<C>, st: ScanState<C>, a: string): (r: ScanState<C>)
    ensures r.checked == st.checked + {a}
    ensures a in st.checked ==> r == st
    ensures a !in st.checked ==> r.fired == st.fired + (if a in w then [a] else [])
  {
    if a in st.checked then st
    else
      var cb := Lookup(w, a);
      ScanState(st.checked + {a}, cb, if cb.Some? then st.fired + [a] else st.fired)
  }

  /** The coinbase step as written: `eventCallbacks[cb]` looks up the key
      `String(cb)` of the previously looked-up callback, not the coinbase. */
  function VisitCoinbaseAsWritten<C>(w: Watches<C>, show: C -> string, st: ScanState<C>, cnb: string): (r: ScanState<C>)
    ensures r.checked == st.checked + {cnb}
    ensures cnb in st.checked ==> r == st
    ensures cnb !in st.checked ==>
              r.fired == st.fired + (if KeyOf(st.cb, show) in w then [KeyOf(st.cb, show)] else [])
  {
    if cnb in st.checked then st
    else
      var key := KeyOf(st.cb, show);
      var cb := Lookup(w, key);
      ScanState(st.checked + {cnb}, cb, if cb.Some? then st.fired + [key] else st.fired)
  }

  /** The scan with the loop over transactions corrected but the coinbase
      lookup as written. It still checks exactly the block's addresses and
      fires only watched keys, but the key it fires for a coinbase is the
      one named by the previous lookup. */
  function ScanCoinbaseAsWritten<C>(w: Watches<C>, show: C -> string, txs: seq<Tx>): (r: ScanState<C>)
    ensures forall a :: a in r.fired ==> a in w
    ensures forall a :: a in r.checked <==> a in Addresses(txs)
    decreases |txs|
  {
    if txs == [] then ScanState({}, None, [])
    else
      var st := ScanCoinbaseAsWritten(w, show, txs[..|txs| - 1]);
      var tx := txs[|txs| - 1];
      VisitCoinbaseAsWritten(w, show, VisitDirect(w, VisitDirect(w, st, tx.sender), tx.recipient), tx.coinbase)
  }

  /** A watched coinbase whose sender and recipient are unwatched fires
      under the intended scan but not with the lookup as written. */
  lemma CoinbaseLookupMissesCoinbase<C>(f: C, show: C -> string)
    ensures var w, txs := map["0xC" := f], [Tx("0xA", "0xB", "0xC")];
            && ScanCoinbaseAsWritten(w, show, txs).fired == []
            && Notified(w.Keys, Addresses(txs)) == ["0xC"]
  {
    var w, txs := map["0xC" := f], [Tx("0xA", "0xB", "0xC")];
    NotifiedOfOne(w.Keys, "0xA", "0xB", "0xC");
    assert txs[..0] == [];
  }
}
