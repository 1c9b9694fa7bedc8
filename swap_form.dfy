/**
 * The swap form (client/src/components/SwapForm.tsx): the price table it
 * derives from the fetched rows, the price lookup, and its four state slots.
 */
module SwapForm {
  import opened Wrappers
  import opened SwapInputGroup

  /** One fetched price observation; the date is a timestamp, the price a real number. */
  datatype PriceRow = PriceRow(currency: string, date: int, price: real)

  /** The currencies that occur in rows. */
  function Currencies(rows: seq<PriceRow>): (cs: set<string>) {
    set r | r in rows :: r.currency
  }

  /** Among the first n rows, index k is where currency c occurs first. */
  ghost predicate FirstSeenAmong(rows: seq<PriceRow>, n: int, c: string, k: int) {
    0 <= k < n <= |rows| && rows[k].currency == c && forall j :: 0 <= j < k ==> rows[j].currency != c
  }

  /** Index k is where currency c occurs first in rows. */
  ghost predicate FirstSeenAt(rows: seq<PriceRow>, c: string, k: int) {
    FirstSeenAmong(rows, |rows|, c, k)
  }

  /**
   * Among the first n rows, rows[k] is the row of its currency that the table
   * keeps: no other row of that currency is later, and every earlier row of it
   * is strictly older.
   */
  ghost predicate KeptAmong(rows: seq<PriceRow>, n: int, k: int) {
    0 <= k < n <= |rows| &&
    forall j :: 0 <= j < n && rows[j].currency == rows[k].currency ==>
      (j < k ==> rows[j].date < rows[k].date) && (k < j ==> rows[j].date <= rows[k].date)
  }

  /** rows[k] is the row of its currency that the table keeps. */
  ghost predicate KeptAt(rows: seq<PriceRow>, k: int) {
    KeptAmong(rows, |rows|, k)
  }

  /** r is the kept row of its currency. */
  ghost predicate IsKeptRow(rows: seq<PriceRow>, r: PriceRow) {
    exists k :: KeptAt(rows, k) && r == rows[k]
  }

  /** What `normalizePrices(rows)` promises of its output. */
  ghost predicate IsNormalizationOf(out: seq<PriceRow>, rows: seq<PriceRow>) {
    // one row per currency
    (forall a, b :: 0 <= a < b < |out| ==> out[a].currency != out[b].currency) &&
    // exactly the input's currencies
    Currencies(out) == Currencies(rows) &&
    // each output row is the kept input row of its currency
    (forall a :: 0 <= a < |out| ==> IsKeptRow(rows, out[a])) &&
    // in order of first appearance
    (forall a, b, ka, kb ::
       0 <= a < b < |out| && FirstSeenAt(rows, out[a].currency, ka) && FirstSeenAt(rows, out[b].currency, kb) ==> ka < kb)
  }

  lemma FirstSeenAtUnique(rows: seq<PriceRow>, c: string, k1: int, k2: int)
    requires FirstSeenAt(rows, c, k1) && FirstSeenAt(rows, c, k2)
    ensures k1 == k2
  {
  }

  /** For each currency at most one row is the kept one. */
  lemma KeptAtUnique(rows: seq<PriceRow>, k1: int, k2: int)
    requires KeptAt(rows, k1) && KeptAt(rows, k2) && rows[k1].currency == rows[k2].currency
    ensures k1 == k2
  {
  }

  /**
   * A JavaScript `Map` from currency to row: its keys in insertion order and
   * its entries.
   */
  datatype JsMap = JsMap(order: seq<string>, entries: map<string, PriceRow>)

  /** The keys listed once each, and exactly the keys that have entries. */
  ghost predicate WellFormed(m: JsMap) {
    (forall c :: c in m.entries <==> c in m.order) &&
    (forall a, b :: 0 <= a < b < |m.order| ==> m.order[a] != m.order[b])
  }

  /**
   * `map.set(key, row)`: a new key goes to the end of the order, an existing
   * key keeps its position and only its entry changes.
   */
  function MapSet(m: JsMap, key: string, row: PriceRow): (r: JsMap)
    ensures WellFormed(m) ==> WellFormed(r)
    ensures r.entries == m.entries[key := row]
    ensures key in m.entries ==> r.order == m.order
    ensures key !in m.entries ==> r.order == m.order + [key]
  {
    if key in m.entries then JsMap(m.order, m.entries[key := row])
    else JsMap(m.order + [key], m.entries[key := row])
  }

  /** `Array.from(map.values())`: the entries in key order. */
  function Values(m: JsMap): (vs: seq<PriceRow>)
    requires WellFormed(m)
    ensures |vs| == |m.order| && forall a :: 0 <= a < |m.order| ==> vs[a] == m.entries[m.order[a]]
  {
    seq(|m.order|, a requires 0 <= a < |m.order| => m.entries[m.order[a]])
  }

  /** One iteration of the loop: store the row if its currency is new or its date strictly later. */
  function Visit(m: JsMap, row: PriceRow): (r: JsMap) {
    if row.currency !in m.entries || row.date > m.entries[row.currency].date then MapSet(m, row.currency, row)
    else m
  }

  /**
   * One step keeps the map well formed, adds the row's currency as a key and
   * nothing else, leaves an entry that is as recent as the row, and changes
   * nothing when the stored entry is at least as recent.
   */
  lemma VisitStep(m: JsMap, row: PriceRow)
    requires WellFormed(m)
    ensures WellFormed(Visit(m, row))
    ensures Visit(m, row).entries.Keys == m.entries.Keys + {row.currency}
    ensures Visit(m, row).entries[row.currency].date >= row.date
    ensures row.currency in m.entries && row.date <= m.entries[row.currency].date ==> Visit(m, row) == m
  {
  }

  /** The map after the loop has visited the first n rows. */
  function Fill(rows: seq<PriceRow>, n: int): (m: JsMap)
    requires 0 <= n <= |rows|
  {
    if n == 0 then JsMap([], map[]) else Visit(Fill(rows, n - 1), rows[n - 1])
  }

  /** The first index below n whose row has currency c, or -1 if there is none. */
  ghost function FirstIndex(rows: seq<PriceRow>, n: int, c: string): (k: int)
    requires 0 <= n <= |rows|
  {
    if n == 0 then -1
    else
      var p := FirstIndex(rows, n - 1, c);
      if p >= 0 then p else if rows[n - 1].currency == c then n - 1 else -1
  }

  /** The index of the row that Fill(rows, n) stores for c, or -1 if there is none. */
  ghost function KeptIndex(rows: seq<PriceRow>, n: int, c: string): (k: int)
    requires 0 <= n <= |rows|
  {
    if n == 0 then -1
    else
      var m := Fill(rows, n - 1);
      var row := rows[n - 1];
      if row.currency == c && (c !in m.entries || row.date > m.entries[c].date) then n - 1
      else KeptIndex(rows, n - 1, c)
  }

  lemma {:induction false} FirstIndexMeaning(rows: seq<PriceRow>, n: int, c: string)
    requires 0 <= n <= |rows|
    ensures FirstIndex(rows, n, c) >= 0 ==> FirstSeenAmong(rows, n, c, FirstIndex(rows, n, c))
    ensures FirstIndex(rows, n, c) < 0 ==> forall j :: 0 <= j < n ==> rows[j].currency != c
  {
    if n > 0 {
      FirstIndexMeaning(rows, n - 1, c);
    }
  }

  lemma {:induction false} FillWellFormed(rows: seq<PriceRow>, n: int)
    requires 0 <= n <= |rows|
    ensures WellFormed(Fill(rows, n))
  {
    if n > 0 {
      FillWellFormed(rows, n - 1);
    }
  }

  /** The map's keys are the currencies met so far. */
  lemma {:induction false} FillKeys(rows: seq<PriceRow>, n: int, c: string)
    requires 0 <= n <= |rows|
    ensures c in Fill(rows, n).entries <==> FirstIndex(rows, n, c) >= 0
  {
    if n > 0 {
      FillKeys(rows, n - 1, c);
    }
  }

  /** The entry stored for c is the kept row of c among the rows met so far. */
  lemma {:induction false} FillEntryKept(rows: seq<PriceRow>, n: int, c: string)
    requires 0 <= n <= |rows| && c in Fill(rows, n).entries
    ensures var k := KeptIndex(rows, n, c);
      KeptAmong(rows, n, k) && Fill(rows, n).entries[c] == rows[k] && rows[k].currency == c
  {
    var m := Fill(rows, n - 1);
    var row := rows[n - 1];
    var k := KeptIndex(rows, n, c);
    if row.currency == c && (c !in m.entries || row.date > m.entries[c].date) {
      if c in m.entries {
        FillEntryKept(rows, n - 1, c);
      } else {
        FillKeys(rows, n - 1, c);
        FirstIndexMeaning(rows, n - 1, c);
      }
    } else {
      FillEntryKept(rows, n - 1, c);
      assert KeptAmong(rows, n - 1, k);
    }
  }

  /** Keys stand in the map's order as their currencies first appear. */
  lemma {:induction false} FillOrder(rows: seq<PriceRow>, n: int, a: int, b: int)
    requires 0 <= n <= |rows| && 0 <= a < b < |Fill(rows, n).order|
    ensures FirstIndex(rows, n, Fill(rows, n).order[a]) < FirstIndex(rows, n, Fill(rows, n).order[b])
  {
    var m := Fill(rows, n - 1);
    var c := rows[n - 1].currency;
    FillWellFormed(rows, n - 1);
    var ca, cb := Fill(rows, n).order[a], Fill(rows, n).order[b];
    assert ca == m.order[a];
    FillKeys(rows, n - 1, ca);
    if b < |m.order| {
      FillOrder(rows, n - 1, a, b);
      FillKeys(rows, n - 1, cb);
    } else {
      // b is the key this row appended
      assert c !in m.entries && cb == c;
      FillKeys(rows, n - 1, cb);
      FirstIndexMeaning(rows, n - 1, ca);
    }
  }

  /** Reading the filled map off in key order gives a normalization of the rows. */
  lemma FillIsNormalization(rows: seq<PriceRow>)
    ensures WellFormed(Fill(rows, |rows|)) && IsNormalizationOf(Values(Fill(rows, |rows|)), rows)
  {
    var n := |rows|;
    var m := Fill(rows, n);
    FillWellFormed(rows, n);
    var out := Values(m);
    forall a | 0 <= a < |out| ensures out[a].currency == m.order[a] && IsKeptRow(rows, out[a]) {
      FillEntryKept(rows, n, m.order[a]);
      assert KeptAt(rows, KeptIndex(rows, n, m.order[a]));
    }
    forall a, b, ka, kb | 0 <= a < b < |out| && FirstSeenAt(rows, out[a].currency, ka) && FirstSeenAt(rows, out[b].currency, kb)
      ensures ka < kb
    {
      FillOrder(rows, n, a, b);
      FillKeys(rows, n, m.order[a]);
      FillKeys(rows, n, m.order[b]);
      FirstIndexMeaning(rows, n, m.order[a]);
      FirstIndexMeaning(rows, n, m.order[b]);
      FirstSeenAtUnique(rows, m.order[a], ka, FirstIndex(rows, n, m.order[a]));
      FirstSeenAtUnique(rows, m.order[b], kb, FirstIndex(rows, n, m.order[b]));
    }
    forall c | c in Currencies(rows) ensures c in Currencies(out) {
      var j :| 0 <= j < |rows| && rows[j].currency == c;
      FirstIndexMeaning(rows, n, c);
      FillKeys(rows, n, c);
      var a :| 0 <= a < |m.order| && m.order[a] == c;
      assert out[a].currency == c;
    }
    forall c | c in Currencies(out) ensures c in Currencies(rows) {
      var a :| 0 <= a < |out| && out[a].currency == c;
      FillEntryKept(rows, n, c);
      assert rows[KeptIndex(rows, n, c)] in rows;
    }
  }

  /**
   * `normalizePrices`: one pass over the rows filling a JavaScript `Map` from
   * currency to row. A row is stored when its currency is not yet a key or its
   * date is strictly later than the stored row's; the result is the map's
   * values in key order.
   */
  method NormalizePrices(rows: seq<PriceRow>) returns (out: seq<PriceRow>)
    ensures IsNormalizationOf(out, rows)
  {
    var table := JsMap([], map[]);
    for i := 0 to |rows|
      invariant table == Fill(rows, i)
    {
      var row := rows[i];
      if row.currency !in table.entries || row.date > table.entries[row.currency].date {
        table := MapSet(table, row.currency, row);
      }
    }
    FillIsNormalization(rows);
    out := Values(table);
  }

  /** `currencies.find(c => c.currency === currency)`: the first row of that currency, if any. */
  function Find(rows: seq<PriceRow>, currency: string): (r: Option<PriceRow>)
    ensures r.None? <==> currency !in Currencies(rows)
    ensures r.Some? ==> r.value in rows && r.value.currency == currency
  {
    if rows == [] then None
    else if rows[0].currency == currency then Some(rows[0])
    else
      assert Currencies(rows) == {rows[0].currency} + Currencies(rows[1..]) by {
        assert rows == [rows[0]] + rows[1..];
      }
      Find(rows[1..], currency)
  }

  /** `find` answers with the row at the currency's first index. */
  lemma {:induction false} FindIsFirst(rows: seq<PriceRow>, currency: string, k: int)
    requires FirstSeenAt(rows, currency, k)
    ensures Find(rows, currency) == Some(rows[k])
  {
    if k > 0 {
      FindIsFirst(rows[1..], currency, k - 1);
    }
  }

  /** The `fromPrice`/`toPrice` lookup: the first matching row's price, or 1 when none matches. */
  function PriceOf(rows: seq<PriceRow>, currency: string): (p: real)
    ensures currency !in Currencies(rows) ==> p == 1.0
    ensures currency in Currencies(rows) ==> exists k :: FirstSeenAt(rows, currency, k) && p == rows[k].price
  {
    match Find(rows, currency)
    case None => 1.0
    case Some(row) =>
      FindMatchesFirstIndex(rows, currency);
      row.price
  }

  lemma FindMatchesFirstIndex(rows: seq<PriceRow>, currency: string)
    requires currency in Currencies(rows)
    ensures exists k :: FirstSeenAt(rows, currency, k) && Find(rows, currency) == Some(rows[k])
  {
    FirstIndexExists(rows, currency);
    var k :| FirstSeenAt(rows, currency, k);
    FindIsFirst(rows, currency, k);
  }

  /** A currency that occurs has a first index. */
  lemma {:induction false} FirstIndexExists(rows: seq<PriceRow>, currency: string)
    requires currency in Currencies(rows)
    ensures exists k :: FirstSeenAt(rows, currency, k)
  {
    if rows[0].currency == currency {
      assert FirstSeenAt(rows, currency, 0);
    } else {
      assert rows == [rows[0]] + rows[1..];
      assert currency in Currencies(rows[1..]);
      FirstIndexExists(rows[1..], currency);
      var k :| FirstSeenAt(rows[1..], currency, k);
      assert FirstSeenAt(rows, currency, k + 1);
    }
  }

  /** On the normalized table the lookup gives the price of the currency's latest input row. */
  lemma PriceOfNormalized(out: seq<PriceRow>, rows: seq<PriceRow>, currency: string)
    requires IsNormalizationOf(out, rows) && currency in Currencies(rows)
    ensures exists k :: KeptAt(rows, k) && rows[k].currency == currency && PriceOf(out, currency) == rows[k].price
  {
    FindMatchesFirstIndex(out, currency);
    var a :| FirstSeenAt(out, currency, a);
    var k :| KeptAt(rows, k) && out[a] == rows[k];
  }

  /**
   * `!Number.isNaN(Number(s))` for strings over digits and '.': the empty
   * string (which is 0) or at most one '.' with at least one digit.
   */
  predicate IsNumeric(s: string) {
    s == [] || (AcceptsAmount(s) && exists i :: 0 <= i < |s| && IsDigit(s[i]))
  }

  /** The guard `!amount || Number.isNaN(Number(amount))` of `recalcTo` and `recalcFrom`. */
  predicate ClearsOpposite(amount: string) {
    amount == [] || !IsNumeric(amount)
  }

  /**
   * Of the strings the input filter lets through, exactly "" and "." clear the
   * other side: "." passes the filter but is not a number.
   */
  lemma ClearsOppositeOnAccepted(s: string)
    requires AcceptsAmount(s)
    ensures ClearsOpposite(s) <==> s == "" || s == "."
  {
    if s != "" && s != "." {
      var k :| 0 <= k <= |s| && AllDigits(s[..k]) && (k == |s| || (s[k] == '.' && AllDigits(s[k + 1..])));
      if k > 0 {
        assert IsDigit(s[..k][0]);
      } else {
        assert |s| > 1;
        assert IsDigit(s[k + 1..][0]);
      }
    }
  }

  /** The four `useState` slots of the form. */
  datatype FormState = FormState(fromCurrency: string, toCurrency: string, fromAmount: string, toAmount: string)

  /** The slots the form starts with. */
  const InitialState: FormState := FormState("ETH", "USDC", "", "")

  /** What `swapDirection` makes of the slots: both sides exchanged, from the values before the swap. */
  function Swapped(s: FormState): (t: FormState) {
    FormState(s.toCurrency, s.fromCurrency, s.toAmount, s.fromAmount)
  }

  /** Swapping twice restores every slot. */
  lemma SwappedTwice(s: FormState)
    ensures Swapped(Swapped(s)) == s
  {
  }

  /**
   * The form. Its "Sell" input group is bound to the fromCurrency/fromAmount
   * slots and its "Buy" group to toCurrency/toAmount; `currencies` is the
   * normalized price table. The floating-point conversion
   * `(Number(amount) * numerator / denominator).toFixed(3)` is the parameter
   * `quote(amount, numerator, denominator)`.
   */
  class Form {
    const currencies: seq<PriceRow>
    const quote: (string, real, real) -> string
    const sell: InputGroup
    const buy: InputGroup

    ghost predicate Valid()
      reads this
    {
      sell != buy
    }

    function State(): (s: FormState)
      reads this, sell, buy
    {
      FormState(sell.currency, buy.currency, sell.amount, buy.amount)
    }

    /** `fromPrice`. */
    function FromPrice(): (p: real)
      reads this, sell
    {
      PriceOf(currencies, sell.currency)
    }

    /** `toPrice`. */
    function ToPrice(): (p: real)
      reads this, buy
    {
      PriceOf(currencies, buy.currency)
    }

    /** What a recalculation writes to the other amount. */
    function Recalculated(amount: string, numerator: real, denominator: real): (r: string)
      reads this
    {
      if ClearsOpposite(amount) then "" else quote(amount, numerator, denominator)
    }

    constructor (prices: seq<PriceRow>, quote: (string, real, real) -> string)
      ensures Valid() && fresh(sell) && fresh(buy)
      ensures IsNormalizationOf(currencies, prices) && this.quote == quote
      ensures State() == InitialState
    {
      var normalized := NormalizePrices(prices);
      currencies := normalized;
      this.quote := quote;
      sell := new InputGroup("ETH");
      buy := new InputGroup("USDC");
    }

    /** `recalcTo`: clears toAmount on an empty or non-numeric amount, else converts at fromPrice/toPrice. */
    method RecalcTo(amount: string)
      requires Valid()
      modifies buy
      ensures State() == old(State()).(toAmount := Recalculated(amount, old(FromPrice()), old(ToPrice())))
    {
      if ClearsOpposite(amount) {
        buy.amount := "";
        return;
      }
      buy.amount := quote(amount, FromPrice(), ToPrice());
    }

    /** `recalcFrom`: clears fromAmount on an empty or non-numeric amount, else converts at toPrice/fromPrice. */
    method RecalcFrom(amount: string)
      requires Valid()
      modifies sell
      ensures State() == old(State()).(fromAmount := Recalculated(amount, old(ToPrice()), old(FromPrice())))
    {
      if ClearsOpposite(amount) {
        sell.amount := "";
        return;
      }
      sell.amount := quote(amount, ToPrice(), FromPrice());
    }

    /** `swapDirection`: one batched update that exchanges both currencies and both amounts. */
    method SwapDirection()
      requires Valid()
      modifies sell, buy
      ensures State() == Swapped(old(State()))
    {
      sell.currency, buy.currency, sell.amount, buy.amount := buy.currency, sell.currency, buy.amount, sell.amount;
    }

    /** Typing into "Sell": the group's filter, then `recalcTo` with the accepted string. */
    method SellInputChange(value: string)
      requires Valid()
      modifies sell, buy
      ensures AcceptsAmount(value) ==>
        State() == old(State()).(fromAmount := value, toAmount := Recalculated(value, old(FromPrice()), old(ToPrice())))
      ensures !AcceptsAmount(value) ==> State() == old(State())
    {
      var recalculate := sell.OnInputChange(value);
      if recalculate.Some? {
        RecalcTo(recalculate.value);
      }
    }

    /** Typing into "Buy": the group's filter, then `recalcFrom` with the accepted string. */
    method BuyInputChange(value: string)
      requires Valid()
      modifies sell, buy
      ensures AcceptsAmount(value) ==>
        State() == old(State()).(toAmount := value, fromAmount := Recalculated(value, old(ToPrice()), old(FromPrice())))
      ensures !AcceptsAmount(value) ==> State() == old(State())
    {
      var recalculate := buy.OnInputChange(value);
      if recalculate.Some? {
        RecalcFrom(recalculate.value);
      }
    }

    /** Picking a "Sell" currency changes that slot only. */
    method SellCurrencyChange(currency: string)
      requires Valid()
      modifies sell
      ensures State() == old(State()).(fromCurrency := currency)
    {
      sell.OnCurrencyChange(currency);
    }

    /** Picking a "Buy" currency changes that slot only. */
    method BuyCurrencyChange(currency: string)
      requires Valid()
      modifies buy
      ensures State() == old(State()).(toCurrency := currency)
    {
      buy.OnCurrencyChange(currency);
    }
  }
}
