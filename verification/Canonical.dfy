/**
 Canonical forms of an order request: sorted items, the text each service hashes,
 the parsing of a ReserveStock request, and the check Sales makes on a reservation.
 The digest of a text is modelled by the text itself.
 */
module Canonical {
  import opened Identifiers

  const MAX_ITEMS_PER_ORDER := 50
  const MIN_QUANTITY := 1
  const MAX_QUANTITY := 999

  datatype Item = Item(partId: PartId, quantity: nat)

  predicate Distinct(items: seq<Item>) {
    forall i, j :: 0 <= i < j < |items| ==> items[i].partId != items[j].partId
  }

  predicate Ascending(items: seq<Item>) {
    forall i, j :: 0 <= i < j < |items| ==> Before(items[i].partId, items[j].partId)
  }

  predicate ValidItem(item: Item) {
    IsLowerUuid(item.partId) && MIN_QUANTITY <= item.quantity <= MAX_QUANTITY
  }

  /** What `parseReserveRequest` promises of the items it returns. */
  predicate ValidItems(items: seq<Item>) {
    && 1 <= |items| <= MAX_ITEMS_PER_ORDER
    && Distinct(items)
    && forall i :: 0 <= i < |items| ==> ValidItem(items[i])
  }

  // ---------- sorting ----------

  function Insert(x: Item, s: seq<Item>): (r: seq<Item>)
    ensures multiset(r) == multiset(s) + multiset{x}
  {
    if s == [] then [x]
    else if Before(s[0].partId, x.partId) then
      assert s == [s[0]] + s[1..];
      [s[0]] + Insert(x, s[1..])
    else [x] + s
  }

  /** Items by ascending part id. `SortedUnique` shows that any other sort gives the same. */
  function SortItems(items: seq<Item>): (r: seq<Item>)
    ensures multiset(r) == multiset(items)
    ensures |r| == |items|
  {
    if items == [] then []
    else
      assert items == [items[0]] + items[1..];
      var r := Insert(items[0], SortItems(items[1..]));
      assert |multiset(r)| == |r|;
      r
  }

  lemma {:induction false} InsertAscending(x: Item, s: seq<Item>)
    requires Ascending(s) && forall i :: 0 <= i < |s| ==> s[i].partId != x.partId
    ensures Ascending(Insert(x, s))
  {
    if s != [] {
      BeforeTotal(s[0].partId, x.partId);
      if Before(s[0].partId, x.partId) {
        InsertAscending(x, s[1..]);
        var r := Insert(x, s[1..]);
        forall j | 0 <= j < |r| ensures Before(s[0].partId, r[j].partId) {
          assert r[j] in multiset(r);
          if r[j] != x {
            assert r[j] in multiset(s[1..]);
            assert r[j] in s[1..];
          }
        }
      } else {
        forall j | 1 <= j < |s| ensures Before(x.partId, s[j].partId) {
          BeforeTransitive(x.partId, s[0].partId, s[j].partId);
        }
      }
    }
  }

  lemma {:induction false} SortAscending(items: seq<Item>)
    requires Distinct(items)
    ensures Ascending(SortItems(items))
  {
    if items != [] {
      SortAscending(items[1..]);
      var r := SortItems(items[1..]);
      forall i | 0 <= i < |r| ensures r[i].partId != items[0].partId {
        assert r[i] in multiset(r);
        assert r[i] in multiset(items[1..]);
        assert r[i] in items[1..];
      }
      InsertAscending(items[0], r);
    }
  }

  lemma AscendingIsDistinct(items: seq<Item>)
    requires Ascending(items)
    ensures Distinct(items)
  {
    forall i, j | 0 <= i < j < |items| ensures items[i].partId != items[j].partId {
      BeforeTotal(items[i].partId, items[j].partId);
    }
  }

  lemma HeadIsLeast(a: seq<Item>, b: seq<Item>)
    requires Ascending(a) && multiset(a) == multiset(b) && a != [] && b != []
    ensures a[0] == b[0] || Before(a[0].partId, b[0].partId)
  {
    assert b[0] in multiset(a);
    var j :| 0 <= j < |a| && a[j] == b[0];
  }

  lemma SameTails(a: seq<Item>, b: seq<Item>)
    requires a != [] && b != [] && a[0] == b[0] && multiset(a) == multiset(b)
    ensures multiset(a[1..]) == multiset(b[1..])
  {
    assert a == [a[0]] + a[1..] && b == [b[0]] + b[1..];
    assert multiset(a[1..]) == multiset(a) - multiset{a[0]};
    assert multiset(b[1..]) == multiset(b) - multiset{b[0]};
  }

  /** Sorting loses nothing and picks one representative: strictly ascending lists of the same items are equal. */
  lemma {:induction false} SortedUnique(a: seq<Item>, b: seq<Item>)
    requires Ascending(a) && Ascending(b) && multiset(a) == multiset(b)
    ensures a == b
  {
    assert |multiset(a)| == |a| && |multiset(b)| == |b|;
    if a != [] {
      HeadIsLeast(a, b);
      HeadIsLeast(b, a);
      BeforeTotal(a[0].partId, b[0].partId);
      SameTails(a, b);
      SortedUnique(a[1..], b[1..]);
      assert a == [a[0]] + a[1..] && b == [b[0]] + b[1..];
    }
  }

  lemma SortIsCanonical(a: seq<Item>, b: seq<Item>)
    requires Distinct(a) && Distinct(b)
    ensures SortItems(a) == SortItems(b) <==> multiset(a) == multiset(b)
  {
    SortAscending(a);
    SortAscending(b);
    if multiset(a) == multiset(b) {
      SortedUnique(SortItems(a), SortItems(b));
    }
  }

  lemma SortKeepsValid(items: seq<Item>)
    requires ValidItems(items)
    ensures ValidItems(SortItems(items)) && Ascending(SortItems(items))
  {
    SortAscending(items);
    var r := SortItems(items);
    AscendingIsDistinct(r);
    forall i | 0 <= i < |r| ensures ValidItem(r[i]) {
      assert r[i] in multiset(r);
      assert r[i] in multiset(items);
      assert r[i] in items;
    }
  }

  // ---------- printed forms ----------

  function Digit(d: nat): (c: char)
    requires d < 10
  {
    ('0' as int + d) as char
  }

  function Decimal(n: nat): string {
    if n < 10 then [Digit(n)] else Decimal(n / 10) + [Digit(n % 10)]
  }

  function ReadDecimal(s: string): int {
    if s == [] then 0 else 10 * ReadDecimal(s[..|s| - 1]) + (s[|s| - 1] as int - '0' as int)
  }

  lemma {:induction false} DecimalRoundTrip(n: nat)
    ensures ReadDecimal(Decimal(n)) == n
    ensures forall i :: 0 <= i < |Decimal(n)| ==> '0' <= Decimal(n)[i] <= '9'
    ensures Decimal(n) != [] && (n > 0 ==> Decimal(n)[0] != '0') && (n == 0 ==> Decimal(n) == "0")
  {
    if n < 10 {
      assert ReadDecimal([Digit(n)][..0]) == 0;
    } else {
      DecimalRoundTrip(n / 10);
      var s := Decimal(n);
      assert s[..|s| - 1] == Decimal(n / 10);
    }
  }

  /** How one item is printed: as `["id",q]` by Inventory, as `{"partId":"id","quantity":q}` by Sales. */
  datatype Style = Style(open: string, mid: string, close: char)

  const PAIR := Style("[\"", ",", ']')
  const RECORD := Style("{\"partId\":\"", ",\"quantity\":", '}')

  function Print(style: Style, item: Item): string {
    style.open + item.partId + ['"'] + style.mid + Decimal(item.quantity) + [style.close]
  }

  function PrintRest(style: Style, items: seq<Item>): string {
    if items == [] then "]" else "," + Print(style, items[0]) + PrintRest(style, items[1..])
  }

  /** `JSON.stringify` of the list of printed items. */
  function PrintList(style: Style, items: seq<Item>): string {
    if items == [] then "[]" else "[" + Print(style, items[0]) + PrintRest(style, items[1..])
  }

  lemma SplitAtMark(a: string, b: string, mark: char, x: string, y: string)
    requires a + [mark] + x == b + [mark] + y && mark !in a && mark !in b
    ensures a == b && x == y
  {
    var s := a + [mark] + x;
    var t := b + [mark] + y;
    assert s[|a|] == mark && t[|b|] == mark;
    assert forall i :: 0 <= i < |b| ==> t[i] == b[i];
    assert forall i :: 0 <= i < |a| ==> s[i] == a[i];
    assert a == s[..|a|] && b == t[..|b|];
    assert x == s[|a| + 1..] && y == t[|b| + 1..];
  }

  predicate Printable(style: Style, items: seq<Item>) {
    !('0' <= style.close <= '9') && forall i :: 0 <= i < |items| ==> '"' !in items[i].partId
  }

  /** What follows the opening of a printed item. */
  lemma PrintOpens(style: Style, item: Item, x: string)
    ensures (Print(style, item) + x)[|style.open|..] ==
      item.partId + ['"'] + (style.mid + (Decimal(item.quantity) + [style.close] + x))
  {
    var rest := item.partId + ['"'] + (style.mid + (Decimal(item.quantity) + [style.close] + x));
    assert Print(style, item) + x == style.open + rest;
  }

  lemma PrintInjective(style: Style, a: Item, b: Item, x: string, y: string)
    requires Printable(style, [a, b])
    requires Print(style, a) + x == Print(style, b) + y
    ensures a == b && x == y
  {
    assert '"' !in [a, b][0].partId && '"' !in [a, b][1].partId;
    hide Print, Decimal;
    var tailA := Decimal(a.quantity) + [style.close] + x;
    var tailB := Decimal(b.quantity) + [style.close] + y;
    PrintOpens(style, a, x);
    PrintOpens(style, b, y);
    SplitAtMark(a.partId, b.partId, '"', style.mid + tailA, style.mid + tailB);
    DecimalRoundTrip(a.quantity);
    DecimalRoundTrip(b.quantity);
    assert (style.mid + tailA)[|style.mid|..] == tailA && (style.mid + tailB)[|style.mid|..] == tailB;
    SplitAtMark(Decimal(a.quantity), Decimal(b.quantity), style.close, x, y);
  }

  lemma PrintRestCons(style: Style, a: seq<Item>)
    requires a != []
    ensures PrintRest(style, a)[0] == ','
    ensures PrintRest(style, a)[1..] == Print(style, a[0]) + PrintRest(style, a[1..])
  {
    assert PrintRest(style, a) == "," + (Print(style, a[0]) + PrintRest(style, a[1..]));
  }

  lemma {:induction false} PrintRestInjective(style: Style, a: seq<Item>, b: seq<Item>)
    requires Printable(style, a) && Printable(style, b)
    requires PrintRest(style, a) == PrintRest(style, b)
    ensures a == b
  {
    if a != [] { PrintRestCons(style, a); }
    if b != [] { PrintRestCons(style, b); }
    if a != [] && b != [] {
      PrintInjective(style, a[0], b[0], PrintRest(style, a[1..]), PrintRest(style, b[1..]));
      PrintRestInjective(style, a[1..], b[1..]);
      assert a == [a[0]] + a[1..] && b == [b[0]] + b[1..];
    }
  }

  lemma PrintListCons(style: Style, a: seq<Item>)
    requires a != [] && style.open != ""
    ensures |PrintList(style, a)| > 1 && PrintList(style, a)[1] == style.open[0]
    ensures PrintList(style, a)[1..] == Print(style, a[0]) + PrintRest(style, a[1..])
  {
    assert PrintList(style, a) == "[" + (Print(style, a[0]) + PrintRest(style, a[1..]));
    assert Print(style, a[0])[0] == style.open[0];
  }

  /** The printed list can be read back in one way only. */
  lemma PrintListInjective(style: Style, a: seq<Item>, b: seq<Item>)
    requires Printable(style, a) && Printable(style, b) && style.open != "" && style.open[0] != ']'
    requires PrintList(style, a) == PrintList(style, b)
    ensures a == b
  {
    if a != [] { PrintListCons(style, a); }
    if b != [] { PrintListCons(style, b); }
    if a != [] && b != [] {
      PrintInjective(style, a[0], b[0], PrintRest(style, a[1..]), PrintRest(style, b[1..]));
      PrintRestInjective(style, a[1..], b[1..]);
      assert a == [a[0]] + a[1..] && b == [b[0]] + b[1..];
    }
  }

  // ---------- what each service hashes ----------

  /** Inventory's `requestFingerprint`. */
  function Fingerprint(items: seq<Item>): string {
    PrintList(PAIR, SortItems(items))
  }

  /** Sales' `normalizeItems`. */
  function NormalizeItems(items: seq<Item>): seq<Item> {
    SortItems(LowerItems(items))
  }

  function LowerItems(items: seq<Item>): (r: seq<Item>)
    ensures |r| == |items|
  {
    seq(|items|, i requires 0 <= i < |items| => items[i].(partId := ToLower(items[i].partId)))
  }

  /** Sales' `hashRequest`. */
  function HashRequest(customerId: string, items: seq<Item>): string {
    "{\"customerId\":\"" + ToLower(customerId) + ['"'] + ",\"items\":" + PrintList(RECORD, items) + "}"
  }

  /** What request validation admits as the items of a new order. */
  predicate ValidOrderItems(items: seq<Item>) {
    && 1 <= |items| <= 50
    && Distinct(LowerItems(items))
    && forall i :: 0 <= i < |items| ==> IsUuid(items[i].partId) && 1 <= items[i].quantity <= 999
  }

  /** The same part up to case, the same quantity. */
  predicate SameLine(a: Item, b: Item) {
    SameText(a.partId, b.partId) && a.quantity == b.quantity
  }

  /** Each line is found among the normalized ones, its id without capitals. */
  lemma NormalizedLines(items: seq<Item>)
    ensures |NormalizeItems(items)| == |items|
    ensures forall i :: 0 <= i < |items| ==>
      exists k :: 0 <= k < |items| && SameLine(NormalizeItems(items)[k], items[i])
    ensures forall k :: 0 <= k < |NormalizeItems(items)| ==> NoCapitals(NormalizeItems(items)[k].partId)
  {
    var lowered, normal := LowerItems(items), NormalizeItems(items);
    assert |multiset(lowered)| == |lowered| && |multiset(normal)| == |normal|;
    forall i | 0 <= i < |items|
      ensures exists k :: 0 <= k < |items| && SameLine(normal[k], items[i])
    {
      LowerIsCanonical(items[i].partId);
      assert lowered[i] in multiset(lowered) && lowered[i] in multiset(normal);
      var k :| 0 <= k < |normal| && normal[k] == lowered[i];
    }
    forall k | 0 <= k < |normal| ensures NoCapitals(normal[k].partId) {
      assert normal[k] in multiset(normal) && normal[k] in multiset(lowered);
      var i :| 0 <= i < |lowered| && lowered[i] == normal[k];
      LowerIsCanonical(items[i].partId);
    }
  }

  lemma NormalizedIsValid(items: seq<Item>)
    requires ValidOrderItems(items)
    ensures ValidItems(LowerItems(items))
    ensures ValidItems(NormalizeItems(items)) && Ascending(NormalizeItems(items))
    ensures |NormalizeItems(items)| == |items|
    ensures forall i :: 0 <= i < |items| ==>
      exists k :: 0 <= k < |items| && SameLine(NormalizeItems(items)[k], items[i])
    ensures forall k :: 0 <= k < |NormalizeItems(items)| ==> NoCapitals(NormalizeItems(items)[k].partId)
  {
    NormalizedLines(items);
    var lowered := LowerItems(items);
    forall i | 0 <= i < |lowered| ensures ValidItem(lowered[i]) {
      LowerUuid(items[i].partId);
    }
    SortKeepsValid(lowered);
  }

  lemma ValidIsPrintable(style: Style, items: seq<Item>)
    requires ValidItems(items) && !('0' <= style.close <= '9')
    ensures Printable(style, items)
  {
    forall i | 0 <= i < |items| ensures '"' !in items[i].partId {
      assert ValidItem(items[i]);
      UuidHasNoQuote(items[i].partId);
    }
  }

  /** Two reservations have the same fingerprint exactly when one lists the other's lines in some order. */
  lemma FingerprintIsCanonical(a: seq<Item>, b: seq<Item>)
    requires ValidItems(a) && ValidItems(b)
    ensures Fingerprint(a) == Fingerprint(b) <==> multiset(a) == multiset(b)
  {
    SortIsCanonical(a, b);
    if Fingerprint(a) == Fingerprint(b) {
      SortKeepsValid(a);
      SortKeepsValid(b);
      ValidIsPrintable(PAIR, SortItems(a));
      ValidIsPrintable(PAIR, SortItems(b));
      PrintListInjective(PAIR, SortItems(a), SortItems(b));
    }
  }

  /** The text hashed by Sales determines the customer and the normalized items. */
  lemma HashIsInjective(c: string, a: seq<Item>, d: string, b: seq<Item>)
    requires IsUuid(c) && IsUuid(d) && ValidItems(a) && ValidItems(b)
    requires HashRequest(c, a) == HashRequest(d, b)
    ensures ToLower(c) == ToLower(d) && a == b
  {
    LowerUuid(c);
    LowerUuid(d);
    var open := "{\"customerId\":\"";
    var mid := ",\"items\":";
    var restA := mid + PrintList(RECORD, a) + "}";
    var restB := mid + PrintList(RECORD, b) + "}";
    assert HashRequest(c, a)[|open|..] == ToLower(c) + ['"'] + restA;
    assert HashRequest(d, b)[|open|..] == ToLower(d) + ['"'] + restB;
    SplitAtMark(ToLower(c), ToLower(d), '"', restA, restB);
    assert restA[|mid|..|restA| - 1] == PrintList(RECORD, a);
    assert restB[|mid|..|restB| - 1] == PrintList(RECORD, b);
    ValidIsPrintable(RECORD, a);
    ValidIsPrintable(RECORD, b);
    PrintListInjective(RECORD, a, b);
  }

  /**
   Two create requests hash alike exactly when they name the same customer and the same lines, in
   any order and case.
   */
  lemma HashRequestIsCanonical(c: string, a: seq<Item>, d: string, b: seq<Item>)
    requires IsUuid(c) && IsUuid(d) && ValidOrderItems(a) && ValidOrderItems(b)
    ensures HashRequest(c, NormalizeItems(a)) == HashRequest(d, NormalizeItems(b))
       <==> SameText(c, d) && SameLines(a, b)
  {
    SameLowerIffSameText(c, d);
    SameLinesIffSameLowered(a, b);
    NormalizedIsValid(a);
    NormalizedIsValid(b);
    SortIsCanonical(LowerItems(a), LowerItems(b));
    if HashRequest(c, NormalizeItems(a)) == HashRequest(d, NormalizeItems(b)) {
      HashIsInjective(c, NormalizeItems(a), d, NormalizeItems(b));
    }
  }

  /** As many lines, and each line of one in the other. */
  predicate SameLines(a: seq<Item>, b: seq<Item>) {
    && |a| == |b|
    && forall i :: 0 <= i < |a| ==>
      exists j :: 0 <= j < |b| && SameLine(a[i], b[j])
  }

  lemma SameLinesIffSameLowered(a: seq<Item>, b: seq<Item>)
    requires ValidOrderItems(a) && ValidOrderItems(b)
    ensures SameLines(a, b) <==> multiset(LowerItems(a)) == multiset(LowerItems(b))
  {
    hide IsUuid, ToLower, SameText;
    var x, y := LowerItems(a), LowerItems(b);
    assert |multiset(x)| == |x| && |multiset(y)| == |y|;
    forall i, j | 0 <= i < |a| && 0 <= j < |b|
      ensures x[i] == y[j] <==> SameLine(a[i], b[j])
    {
      SameLowerIffSameText(a[i].partId, b[j].partId);
    }
    if multiset(x) == multiset(y) {
      forall i | 0 <= i < |a|
        ensures exists j :: 0 <= j < |b| && SameLine(a[i], b[j])
      {
        assert x[i] in multiset(x) && x[i] in multiset(y);
        var j :| 0 <= j < |y| && y[j] == x[i];
      }
    }
    if SameLines(a, b) {
      forall i | 0 <= i < |x| ensures x[i] in y {
        var j :| 0 <= j < |b| && SameLine(a[i], b[j]);
        assert x[i] == y[j];
      }
      AllFoundIsPermutation(x, y);
    }
  }

  // ---------- the texts are JSON ----------

  function Quoted(s: string): string {
    ['"'] + s + ['"']
  }

  function Join(parts: seq<string>): string {
    if |parts| == 0 then ""
    else if |parts| == 1 then parts[0]
    else parts[0] + "," + Join(parts[1..])
  }

  function JsonArray(elements: seq<string>): string {
    "[" + Join(elements) + "]"
  }

  /** Two named fields, in this order. */
  function JsonObject(name0: string, value0: string, name1: string, value1: string): string {
    "{" + Join([Quoted(name0) + ":" + value0, Quoted(name1) + ":" + value1]) + "}"
  }

  lemma JoinTwo(a: string, b: string)
    ensures Join([a, b]) == a + "," + b
  {
    assert [a, b][1..] == [b];
  }

  lemma PrintIsJson(item: Item)
    ensures Print(PAIR, item) == JsonArray([Quoted(item.partId), Decimal(item.quantity)])
    ensures Print(RECORD, item) == JsonObject("partId", Quoted(item.partId), "quantity", Decimal(item.quantity))
  {
    hide Decimal;
    JoinTwo(Quoted(item.partId), Decimal(item.quantity));
    JoinTwo(Quoted("partId") + ":" + Quoted(item.partId), Quoted("quantity") + ":" + Decimal(item.quantity));
  }

  function Printed(style: Style, items: seq<Item>): (r: seq<string>)
    ensures |r| == |items|
  {
    seq(|items|, i requires 0 <= i < |items| => Print(style, items[i]))
  }

  lemma {:induction false} RestIsJoin(style: Style, items: seq<Item>)
    ensures PrintRest(style, items) == if items == [] then "]" else "," + Join(Printed(style, items)) + "]"
  {
    hide Print;
    if items != [] {
      RestIsJoin(style, items[1..]);
      assert Printed(style, items)[1..] == Printed(style, items[1..]);
    }
  }

  lemma PrintListIsArray(style: Style, items: seq<Item>)
    ensures PrintList(style, items) == JsonArray(Printed(style, items))
  {
    hide Print;
    if items != [] {
      RestIsJoin(style, items[1..]);
      assert Printed(style, items)[1..] == Printed(style, items[1..]);
    }
  }

  function JsonPairs(items: seq<Item>): (r: seq<string>)
    ensures |r| == |items|
  {
    seq(|items|, i requires 0 <= i < |items| => JsonArray([Quoted(items[i].partId), Decimal(items[i].quantity)]))
  }

  function JsonRecords(items: seq<Item>): (r: seq<string>)
    ensures |r| == |items|
  {
    seq(|items|, i requires 0 <= i < |items| =>
      JsonObject("partId", Quoted(items[i].partId), "quantity", Decimal(items[i].quantity)))
  }

  /** Inventory digests the JSON array of the pairs of id and quantity, sorted. */
  lemma FingerprintIsJson(items: seq<Item>)
    ensures Fingerprint(items) == JsonArray(JsonPairs(SortItems(items)))
  {
    hide Decimal, Print, SortItems, PrintList, JsonArray;
    var sorted := SortItems(items);
    forall i | 0 <= i < |sorted| ensures Print(PAIR, sorted[i]) == JsonPairs(sorted)[i] { PrintIsJson(sorted[i]); }
    PrintListIsArray(PAIR, sorted);
    assert Printed(PAIR, sorted) == JsonPairs(sorted);
  }

  /** Sales digests the JSON object of the customer and the lines. */
  lemma HashRequestIsJson(customerId: string, items: seq<Item>)
    ensures HashRequest(customerId, items) ==
      JsonObject("customerId", Quoted(ToLower(customerId)), "items", JsonArray(JsonRecords(items)))
  {
    hide Decimal, Print, ToLower, PrintList, JsonArray, JsonRecords;
    RecordsAreJson(items);
    PrintListIsArray(RECORD, items);
    JoinTwo(Quoted("customerId") + ":" + Quoted(ToLower(customerId)), Quoted("items") + ":" + PrintList(RECORD, items));
  }

  lemma RecordsAreJson(items: seq<Item>)
    ensures Printed(RECORD, items) == JsonRecords(items)
  {
    hide Decimal, Print, JsonObject;
    forall i | 0 <= i < |items| ensures Print(RECORD, items[i]) == JsonRecords(items)[i] { PrintIsJson(items[i]); }
  }

  /** Equal Sales hashes force equal Inventory fingerprints. */
  lemma EqualHashesEqualFingerprints(c: string, a: seq<Item>, d: string, b: seq<Item>)
    requires IsUuid(c) && IsUuid(d) && ValidOrderItems(a) && ValidOrderItems(b)
    requires HashRequest(c, NormalizeItems(a)) == HashRequest(d, NormalizeItems(b))
    ensures Fingerprint(NormalizeItems(a)) == Fingerprint(NormalizeItems(b)) == Fingerprint(LowerItems(a))
  {
    NormalizedIsValid(a);
    NormalizedIsValid(b);
    HashIsInjective(c, NormalizeItems(a), d, NormalizeItems(b));
    FingerprintIsCanonical(NormalizeItems(a), LowerItems(a));
  }

  // ---------- parsing a ReserveStock request ----------

  datatype RawItem = RawItem(partId: string, quantity: int)

  datatype ItemFault = BadUuid | Duplicated | BadQuantity

  datatype RequestFault =
    | BadOrderId
    | NoItems
    | TooManyItems
    | BadItem(index: nat, fault: ItemFault)

  datatype Parsed = Command(orderId: OrderId, items: seq<Item>) | Invalid(fault: RequestFault)

  /** What is wrong with item `k`, looking only at the request: an earlier item with the same part is a duplicate. */
  function FaultAt(raw: seq<RawItem>, k: nat): Option<ItemFault>
    requires k < |raw|
  {
    if !IsUuid(raw[k].partId) then Some(BadUuid)
    else if exists j :: 0 <= j < k && SameText(raw[j].partId, raw[k].partId) then Some(Duplicated)
    else if !(1 <= raw[k].quantity <= 999) then Some(BadQuantity)
    else None
  }

  /** `parseReserveRequest`: accepts exactly the fault-free requests, and reports the first fault otherwise. */
  method ParseReserveRequest(orderId: string, raw: seq<RawItem>) returns (p: Parsed)
    ensures p.Command? <==>
      && IsUuid(orderId) && 1 <= |raw| <= 50
      && forall k :: 0 <= k < |raw| ==> FaultAt(raw, k) == None
    ensures p.Command? ==>
      && NoCapitals(p.orderId) && SameText(p.orderId, orderId) && ValidItems(p.items) && |p.items| == |raw|
      && forall k :: 0 <= k < |raw| ==>
        NoCapitals(p.items[k].partId) && SameText(p.items[k].partId, raw[k].partId)
          && p.items[k].quantity == raw[k].quantity
    ensures p.Invalid? && p.fault.BadItem? ==>
      && p.fault.index < |raw| && FaultAt(raw, p.fault.index) == Some(p.fault.fault)
      && forall k :: 0 <= k < p.fault.index ==> FaultAt(raw, k) == None
    ensures p == Invalid(BadOrderId) <==> !IsUuid(orderId)
    ensures p == Invalid(NoItems) <==> IsUuid(orderId) && raw == []
    ensures p == Invalid(TooManyItems) <==> IsUuid(orderId) && |raw| > 50
  {
    if !IsUuid(orderId) { return Invalid(BadOrderId); }
    if |raw| == 0 { return Invalid(NoItems); }
    if |raw| > MAX_ITEMS_PER_ORDER { return Invalid(TooManyItems); }
    var seen: set<string> := {};
    var items: seq<Item> := [];
    for index := 0 to |raw|
      invariant |items| == index
      invariant forall s :: s in seen <==> exists j :: 0 <= j < index && ToLower(raw[j].partId) == s
      invariant forall k :: 0 <= k < index ==> FaultAt(raw, k) == None
      invariant forall k :: 0 <= k < index ==>
        items[k].partId == ToLower(raw[k].partId) && items[k].quantity == raw[k].quantity && ValidItem(items[k])
        && NoCapitals(items[k].partId) && SameText(items[k].partId, raw[k].partId)
      invariant Distinct(items)
    {
      if !IsUuid(raw[index].partId) {
        assert FaultAt(raw, index) == Some(BadUuid);
        return Invalid(BadItem(index, BadUuid));
      }
      var partId := ToLower(raw[index].partId);
      forall j | 0 <= j < index
        ensures ToLower(raw[j].partId) == partId <==> SameText(raw[j].partId, raw[index].partId)
      {
        SameLowerIffSameText(raw[j].partId, raw[index].partId);
      }
      if partId in seen {
        assert FaultAt(raw, index) == Some(Duplicated);
        return Invalid(BadItem(index, Duplicated));
      }
      seen := seen + {partId};
      var quantity := raw[index].quantity;
      if quantity < MIN_QUANTITY || quantity > MAX_QUANTITY {
        assert FaultAt(raw, index) == Some(BadQuantity);
        return Invalid(BadItem(index, BadQuantity));
      }
      LowerUuid(raw[index].partId);
      LowerIsCanonical(raw[index].partId);
      assert FaultAt(raw, index) == None;
      items := items + [Item(partId, quantity)];
    }
    LowerIsCanonical(orderId);
    p := Command(ToLower(orderId), items);
  }

  // ---------- checking a reservation against its request ----------

  /** The map Sales builds from the reserved items, keyed by lower-case id; the last of equal ids wins. */
  function ByPart(reserved: seq<Item>): (m: map<PartId, Item>)
    ensures forall id :: id in m ==> m[id] in reserved && ToLower(m[id].partId) == id
    ensures forall i :: 0 <= i < |reserved| ==> ToLower(reserved[i].partId) in m
  {
    if reserved == [] then map[]
    else
      var last := reserved[|reserved| - 1];
      ByPart(reserved[..|reserved| - 1])[ToLower(last.partId) := last]
  }

  /** A reservation answers a request when it reserves the same lines, in any order and case. */
  predicate ReservationMatches(requested: seq<Item>, reserved: seq<Item>) {
    multiset(requested) == multiset(LowerItems(reserved))
  }

  lemma {:induction false} DistinctOnce(items: seq<Item>, x: Item)
    requires Distinct(items)
    ensures multiset(items)[x] <= 1
  {
    if items != [] {
      assert items == [items[0]] + items[1..];
      DistinctOnce(items[1..], x);
      if items[0] == x {
        assert x !in items[1..];
      }
    }
  }

  /** Pigeonhole: n distinct requested lines all found among n reserved lines leave room for nothing else. */
  lemma AllFoundIsPermutation(requested: seq<Item>, reserved: seq<Item>)
    requires Distinct(requested) && |requested| == |reserved|
    requires forall i :: 0 <= i < |requested| ==> requested[i] in reserved
    ensures multiset(requested) == multiset(reserved)
  {
    forall x | x in multiset(requested) ensures multiset(requested)[x] <= multiset(reserved)[x] {
      DistinctOnce(requested, x);
      assert x in requested;
    }
    assert multiset(requested) <= multiset(reserved);
    var extra := multiset(reserved) - multiset(requested);
    assert multiset(reserved) == multiset(requested) + extra;
    assert |multiset(reserved)| == |reserved| && |multiset(requested)| == |requested|;
    assert |extra| == 0;
  }

  lemma PermutationIsFound(requested: seq<Item>, reserved: seq<Item>, i: nat)
    requires Distinct(requested) && ReservationMatches(requested, reserved) && i < |requested|
    ensures |requested| == |reserved|
    ensures requested[i].partId in ByPart(reserved)
      && ByPart(reserved)[requested[i].partId].quantity == requested[i].quantity
  {
    var lowered := LowerItems(reserved);
    assert |multiset(requested)| == |requested| && |multiset(lowered)| == |lowered|;
    assert requested[i] in multiset(lowered);
    var j :| 0 <= j < |lowered| && lowered[j] == requested[i];
    var hit := ByPart(reserved)[requested[i].partId];
    var k :| 0 <= k < |reserved| && reserved[k] == hit;
    assert lowered[k] in multiset(requested);
    var l :| 0 <= l < |requested| && requested[l] == lowered[k];
    assert l == i;
  }

  /** `assertReservationMatches`: returns normally exactly on permutations of the requested lines. */
  method AssertReservationMatches(requested: seq<Item>, reserved: seq<Item>) returns (ok: bool)
    requires Distinct(requested)
    ensures ok <==> ReservationMatches(requested, reserved)
  {
    if |requested| != |reserved| {
      assert |multiset(requested)| == |requested| && |multiset(LowerItems(reserved))| == |reserved|;
      return false;
    }
    var byPart := ByPart(reserved);
    for n := 0 to |requested|
      invariant forall i :: 0 <= i < n ==> requested[i] in LowerItems(reserved)
    {
      var item := requested[n];
      if item.partId !in byPart || byPart[item.partId].quantity != item.quantity {
        if ReservationMatches(requested, reserved) { PermutationIsFound(requested, reserved, n); }
        return false;
      }
      var hit := byPart[item.partId];
      var k :| 0 <= k < |reserved| && reserved[k] == hit;
      assert LowerItems(reserved)[k] == item;
    }
    AllFoundIsPermutation(requested, LowerItems(reserved));
    return true;
  }
}
