/** The order records of the shop: the status choices, the short form of an
    order update, the HTML list of an order's items, and the order itself as
    an object whose fields the payment views update. */
module ShopModels {

  import opened Wrappers
  import opened Json
  import opened Text
  import opened Seqs

  // ---------------------------------------------------------------- status

  /** The three states an order can be in. */
  datatype Status = Placed | Confirmed | Rejected

  /** The stored code and the label shown for each state, in declaration order. */
  const StatusChoices: seq<(string, string)> :=
    [("PLACED", "Placed"), ("CONFIRMED", "Confirmed"), ("REJECTED", "Rejected")]

  /** A new order starts out placed. */
  const DefaultStatus: Status := Placed

  /** The column is ten characters wide. */
  const StatusWidth := 10

  function StatusIndex(s: Status): (i: nat)
    ensures i < |StatusChoices|
  {
    match s
    case Placed => 0
    case Confirmed => 1
    case Rejected => 2
  }

  /** The code stored for a state. */
  function Code(s: Status): (c: string)
    ensures |c| <= StatusWidth
    ensures c == StatusChoices[StatusIndex(s)].0
  {
    match s
    case Placed => "PLACED"
    case Confirmed => "CONFIRMED"
    case Rejected => "REJECTED"
  }

  /** The label shown for a state. */
  function Label(s: Status): (l: string)
    ensures l == StatusChoices[StatusIndex(s)].1
  {
    match s
    case Placed => "Placed"
    case Confirmed => "Confirmed"
    case Rejected => "Rejected"
  }

  /** The state a stored code stands for, if it is one of the choices. */
  function ParseStatus(c: string): (r: Option<Status>)
    ensures r.Some? ==> Code(r.value) == c
  {
    if c == "PLACED" then Some(Placed)
    else if c == "CONFIRMED" then Some(Confirmed)
    else if c == "REJECTED" then Some(Rejected)
    else None
  }

  /** Codes and states correspond one to one, and the choices list each
      state exactly once. */
  lemma StatusCodes(s: Status, c: string)
    ensures ParseStatus(Code(s)) == Some(s)
    ensures ParseStatus(c).Some? <==> exists i :: 0 <= i < |StatusChoices| && StatusChoices[i].0 == c
    ensures Code(DefaultStatus) == "PLACED"
  {
    if ParseStatus(c).Some? {
      assert StatusChoices[StatusIndex(ParseStatus(c).value)].0 == c;
    }
  }

  // --------------------------------------------------------- order updates

  function Min(a: int, b: int): int { if a <= b then a else b }

  /** How an order update names itself: its first seven characters and an
      ellipsis. */
  function UpdateSummary(desc: string): (r: string)
    ensures |r| == Min(7, |desc|) + 3
    ensures StartsWith(desc, r[..|r| - 3])
    ensures r[|r| - 3..] == "..."
  {
    desc[..Min(7, |desc|)] + "..."
  }

  /** Two updates look the same exactly when their descriptions agree on the
      first seven characters (or are identical and shorter). */
  lemma UpdateSummaryEqual(a: string, b: string)
    ensures UpdateSummary(a) == UpdateSummary(b) <==> a[..Min(7, |a|)] == b[..Min(7, |b|)]
  {
    var sa, sb := UpdateSummary(a), UpdateSummary(b);
    if sa == sb {
      assert sa[..|sa| - 3] == a[..Min(7, |a|)];
      assert sb[..|sb| - 3] == b[..Min(7, |b|)];
    }
  }

  /** A description of at most seven characters is shown whole. */
  lemma ShortUpdateShownWhole(desc: string)
    requires |desc| <= 7
    ensures UpdateSummary(desc) == desc + "..."
  {
    assert desc[..|desc|] == desc;
  }

  // ------------------------------------------------------ formatted items

  /** The six values of one entry of an order, by the names the view gives
      them; the stored order is quantity, name, price, color, size, image. */
  datatype Block = Block(qty: Json, name: Json, price: Json, color: Json, size: Json, image: Json)

  /** Why unpacking an entry into six names fails: the value has another
      number of elements (`ValueError`), or cannot be iterated (`TypeError`). */
  datatype UnpackError = WrongCount | NotIterable

  /** The uncaught failure: the decoded value has no `items()` because it is
      not an object (`AttributeError`). */
  datatype Fault = NotAnObject

  /** What unpacking a value into six names gives. Lists give their
      elements, strings their characters and objects their member names. */
  function Unpack(details: Json): (r: Result<seq<Json>, UnpackError>)
    ensures r.Success? ==> |r.value| == 6
    ensures r.Failure? && r.error == NotIterable <==> details.JNull? || details.JBool? || details.JNum?
  {
    match details
    case JArr(es) => if |es| == 6 then Success(es) else Failure(WrongCount)
    case JStr(s) =>
      if |s| == 6 then Success(seq(6, i requires 0 <= i < 6 => JStr([s[i]]))) else Failure(WrongCount)
    case JObj(ms) =>
      if |ms| == 6 then Success(seq(6, i requires 0 <= i < 6 => JStr(ms[i].0))) else Failure(WrongCount)
    case _ => Failure(NotIterable)
  }

  /** The block for one member of the items object. */
  function EntryBlock<K>(m: (K, Json)): (r: Result<Block, UnpackError>)
    ensures r.Success? <==> Unpack(m.1).Success?
    ensures r.Success? ==> var f := Unpack(m.1).value;
              r.value.qty == f[0] && r.value.name == f[1] && r.value.price == f[2] &&
              r.value.color == f[3] && r.value.size == f[4] && r.value.image == f[5]
  {
    match Unpack(m.1)
    case Failure(e) => Failure(e)
    case Success(f) => Success(Block(f[0], f[1], f[2], f[3], f[4], f[5]))
  }

  function Spaces(n: nat): string { seq(n, _ => ' ') }

  /** The HTML of one block; `show` is Python's `str()` of a decoded value.
      The fields appear in the order name, quantity, price, color, size and
      image. */
  function BlockHtml(b: Block, show: Json -> string): string
  {
    "\n" + Spaces(20) + "<div>\n"
    + Spaces(24) + "<strong>Product Name:</strong> " + show(b.name) + "<br>\n"
    + Spaces(24) + "<strong>Quantity:</strong> " + show(b.qty) + "<br>\n"
    + Spaces(24) + "<strong>Price:</strong> $" + show(b.price) + "<br>\n"
    + Spaces(24) + "<strong>Color:</strong> " + show(b.color) + "<br>\n"
    + Spaces(24) + "<strong>Size:</strong> " + show(b.size) + "<br>\n"
    + Spaces(24) + "<img src=\"" + show(b.image) + "\" alt=\"" + show(b.name)
    + "\" style=\"width: 50px; height: 50px;\"/><br><br>\n"
    + Spaces(20) + "</div>\n" + Spaces(16)
  }

  /** The blocks one after the other. */
  function HtmlOf(bs: seq<Block>, show: Json -> string): string
  {
    if bs == [] then [] else HtmlOf(bs[..|bs| - 1], show) + BlockHtml(bs[|bs| - 1], show)
  }

  /** The fixed text of a block alone is longer than the placeholder, so
      the blocks' HTML is empty or longer than the placeholder. */
  lemma {:induction false} HtmlOfLength(bs: seq<Block>, show: Json -> string)
    ensures bs == [] <==> HtmlOf(bs, show) == []
    ensures bs != [] ==> |HtmlOf(bs, show)| > |InvalidItems|
  {
    if bs != [] {
      HtmlOfLength(bs[..|bs| - 1], show);
      BlockHtmlLength(bs[|bs| - 1], show);
    }
  }

  lemma BlockHtmlLength(b: Block, show: Json -> string)
    ensures |BlockHtml(b, show)| > |InvalidItems|
  {
  }

  /** The text shown instead of the items when they cannot be listed. */
  const InvalidItems := "Invalid items format"

  /** What listing the items of an order gives, from the decoded `items_json`
      (`None` when it is not JSON). */
  function ItemsHtml(d: Option<Json>, show: Json -> string): Result<string, Fault>
  {
    match d
    case None => Success(InvalidItems)
    case Some(JObj(ms)) =>
      (match MapAll(EntryBlock, ms)
       case Failure(_) => Success(InvalidItems)
       case Success(bs) => Success(HtmlOf(bs, show)))
    case Some(_) => Failure(NotAnObject)
  }

  /** The listing is the placeholder text exactly when the text is not JSON
      or some entry does not unpack into six values; in every other case it
      is the blocks, never the placeholder. */
  lemma InvalidExactly(d: Option<Json>, show: Json -> string)
    requires d.None? || d.value.JObj?
    ensures ItemsHtml(d, show).Success?
    ensures ItemsHtml(d, show) == Success(InvalidItems) <==>
              d.None? || exists i :: 0 <= i < |d.value.members| && Unpack(d.value.members[i].1).Failure?
  {
    if d.Some? {
      var ms := d.value.members;
      BlocksExactly(ms);
      if MapAll(EntryBlock, ms).Success? {
        HtmlOfLength(MapAll(EntryBlock, ms).value, show);
      }
    }
  }

  /** A well-formed object lists one block per entry, in entry order, each
      made from that entry's six values. */
  lemma OneBlockPerEntry(ms: seq<(string, Json)>, show: Json -> string)
    requires forall i :: 0 <= i < |ms| ==> Unpack(ms[i].1).Success?
    ensures exists bs :: |bs| == |ms| && ItemsHtml(Some(JObj(ms)), show) == Success(HtmlOf(bs, show)) &&
              forall i :: 0 <= i < |ms| ==> EntryBlock(ms[i]) == Success(bs[i])
  {
    BlocksExactly(ms);
    var bs := MapAll(EntryBlock, ms).value;
    assert ItemsHtml(Some(JObj(ms)), show) == Success(HtmlOf(bs, show));
  }

  /** An empty object lists nothing, and a decoded value other than an
      object is not caught. */
  lemma EmptyAndNonObject(show: Json -> string, v: Json)
    ensures ItemsHtml(Some(JObj([])), show) == Success([])
    ensures !v.JObj? ==> ItemsHtml(Some(v), show) == Failure(NotAnObject)
  {
    var none: seq<(string, Json)> := [];
    assert MapAll(EntryBlock, none) == Success([]);
  }

  /** An entry with the wrong number of values, or one that is not a
      container, makes the whole listing the placeholder, whatever the other
      entries are. */
  lemma BadEntrySpoilsAll(ms: seq<(string, Json)>, k: int, show: Json -> string)
    requires 0 <= k < |ms| && Unpack(ms[k].1).Failure?
    ensures ItemsHtml(Some(JObj(ms)), show) == Success(InvalidItems)
  {
    InvalidExactly(Some(JObj(ms)), show);
  }

  // ------------------------------------------------------------- the order

  type UserId = nat

  /** The stored name of an uploaded file; a file that is there has a name. */
  type FileRef = s: string | s != [] witness "f"


  /** An amount of money as the order stores it; its arithmetic plays no part. */
  type Amount = string

  /** Who the order goes to. */
  datatype Contact = Contact(
    name: string, email: string, phone: string,
    address1: string, address2: string, city: string, state: string, zipCode: string)

  /** All the fields of an order at one moment. */
  datatype OrderRecord = OrderRecord(
    orderId: nat,
    itemsJson: string,
    amount: Amount,
    contact: Contact,
    oid: string,
    amountPaid: Option<string>,
    paymentStatus: string,
    payidProof: Option<FileRef>,
    user: Option<UserId>,
    isGuestOrder: bool,
    status: Status,
    shippingMethod: string,
    shippingCost: string)

  /** The fields an order has as long as it is only created and not yet
      paid: those the payment steps change are `oid`, `amountPaid`,
      `paymentStatus` and `payidProof`. */
  predicate SameOrderDetails(a: OrderRecord, b: OrderRecord) {
    a.orderId == b.orderId && a.itemsJson == b.itemsJson && a.amount == b.amount &&
    a.contact == b.contact && a.user == b.user && a.isGuestOrder == b.isGuestOrder &&
    a.status == b.status && a.shippingMethod == b.shippingMethod && a.shippingCost == b.shippingCost
  }

  /** An order of the shop. */
  class Order {
    var orderId: nat
    var itemsJson: string
    var amount: Amount
    var contact: Contact
    var oid: string
    var amountPaid: Option<string>
    var paymentStatus: string
    var payidProof: Option<FileRef>
    var user: Option<UserId>
    var isGuestOrder: bool
    var status: Status
    var shippingMethod: string
    var shippingCost: string

    /** The fields as one value. */
    function Snapshot(): (r: OrderRecord)
      reads this
      ensures r.status == status && r.paymentStatus == paymentStatus
    {
      OrderRecord(orderId, itemsJson, amount, contact, oid, amountPaid, paymentStatus,
                  payidProof, user, isGuestOrder, status, shippingMethod, shippingCost)
    }

    /** An order with the given fields. */
    constructor(r: OrderRecord)
      ensures Snapshot() == r
    {
      orderId := r.orderId;
      itemsJson := r.itemsJson;
      amount := r.amount;
      contact := r.contact;
      oid := r.oid;
      amountPaid := r.amountPaid;
      paymentStatus := r.paymentStatus;
      payidProof := r.payidProof;
      user := r.user;
      isGuestOrder := r.isGuestOrder;
      status := r.status;
      shippingMethod := r.shippingMethod;
      shippingCost := r.shippingCost;
    }

    /** Lists the items: decodes the stored text with `loads`, gives up on
        the whole listing if the text is not JSON or an entry does not
        unpack, and otherwise gives the blocks' texts one after the other. */
    method FormattedItems(loads: string -> Option<Json>, show: Json -> string) returns (r: Result<string, Fault>)
      ensures r == ItemsHtml(loads(itemsJson), show)
    {
      var d := loads(itemsJson);
      if d.None? {
        return Success(InvalidItems);
      }
      if !d.value.JObj? {
        return Failure(NotAnObject);
      }
      var blocks := EntryBlocks(d.value.members);
      if blocks.Failure? {
        return Success(InvalidItems);
      }
      return Success(HtmlOf(blocks.value, show));
    }
  }

  /** The loop over the entries of the items object: builds the block of
      each entry in turn and stops at the first one that does not unpack. */
  method EntryBlocks<K>(ms: seq<(K, Json)>) returns (r: Result<seq<Block>, UnpackError>)
    ensures r == MapAll(EntryBlock, ms)
  {
    var blocks: seq<Block> := [];
    var i := 0;
    while i < |ms|
      invariant 0 <= i <= |ms|
      invariant MapAll(EntryBlock, ms[..i]) == Success(blocks)
    {
      var e := EntryBlock(ms[i]);
      if e.Failure? {
        MapAllFails(EntryBlock, ms, i);
        return Failure(e.error);
      }
      MapAllStep(EntryBlock, ms, i, blocks);
      blocks := blocks + [e.value];
      i := i + 1;
    }
    assert ms[..i] == ms;
    return Success(blocks);
  }

  /** Every entry unpacks exactly when the blocks can all be built, and then
      there is one block per entry, in entry order. */
  lemma BlocksExactly<K>(ms: seq<(K, Json)>)
    ensures MapAll(EntryBlock, ms).Success? <==> forall i :: 0 <= i < |ms| ==> Unpack(ms[i].1).Success?
    ensures MapAll(EntryBlock, ms).Success? ==>
              forall i :: 0 <= i < |ms| ==> EntryBlock(ms[i]) == Success(MapAll(EntryBlock, ms).value[i])
  {
    MapAllSpec(EntryBlock, ms);
    if forall i :: 0 <= i < |ms| ==> Unpack(ms[i].1).Success? {
      forall i | 0 <= i < |ms| ensures EntryBlock(ms[i]).Success? {
        assert Unpack(ms[i].1).Success?;
      }
    } else {
      var k :| 0 <= k < |ms| && Unpack(ms[k].1).Failure?;
      assert EntryBlock(ms[k]).Failure?;
    }
  }

  // -------------------------------------------------------------- example

  /** A string of six characters unpacks too, one character to a field. */
  lemma SixLetterDetails()
    ensures EntryBlock(("id3", JStr("abcdef"))) ==
              Success(Block(JStr("a"), JStr("b"), JStr("c"), JStr("d"), JStr("e"), JStr("f")))
  {
  }
}
