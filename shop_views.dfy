/** The shop's views: the carousel page count, the message for a category
    with nothing to show, checkout, the return from payment, and what the
    notification to the shop owner derives from an order. */
module ShopViews {

  import opened Wrappers
  import opened Text
  import opened ShopModels

  // ---------------------------------------------------------------- slides

  /** Python's `math.ceil`. */
  function Ceil(x: real): int {
    -((-x).Floor)
  }

  /** `n // 4 + ceil(n / 4 - n // 4)`: the number of carousel slides of four
      products each; `n / 4` is taken exactly. */
  function SlideCount(n: nat): int {
    n / 4 + Ceil(n as real / 4.0 - (n / 4) as real)
  }

  /** The slide count is n/4 rounded up: just enough slides of four for n
      products. */
  lemma SlideCountIsCeiling(n: nat)
    ensures SlideCount(n) == (n + 3) / 4
    ensures SlideCount(n) == n / 4 + (if n % 4 == 0 then 0 else 1)
    ensures 4 * (SlideCount(n) - 1) < n <= 4 * SlideCount(n)
  {
    var q, r := n / 4, n % 4;
    assert n == 4 * q + r;
    assert n as real == 4.0 * (q as real) + r as real;
    assert n as real / 4.0 - q as real == r as real / 4.0;
    var x := r as real / 4.0;
    assert r == 0 ==> x == 0.0;
    assert 1 <= r <= 3 ==> 0.0 < x < 1.0;
    assert r == 0 ==> Ceil(x) == 0;
    assert 1 <= r ==> -x < 0.0 && -1.0 < -x;
    assert 1 <= r ==> (-x).Floor == -1;
  }

  /** `range(1, k)` */
  function Range1(k: int): (r: seq<int>)
    ensures |r| == if k <= 1 then 0 else k - 1
    ensures forall i :: 0 <= i < |r| ==> r[i] == i + 1
  {
    if k <= 1 then [] else Range1(k - 1) + [k - 1]
  }

  // ----------------------------------------------------- category message

  predicate IsUpper(c: char) { 'A' <= c <= 'Z' }
  predicate IsLower(c: char) { 'a' <= c <= 'z' }
  predicate IsCased(c: char) { IsUpper(c) || IsLower(c) }

  function Upper(c: char): char { if IsLower(c) then (c as int - 32) as char else c }
  function Lower(c: char): char { if IsUpper(c) then (c as int + 32) as char else c }

  /** `str.title()` on the rest of a text, given whether the character just
      before it was a letter. */
  function TitleFrom(s: string, afterLetter: bool): (r: string)
    ensures |r| == |s|
  {
    if s == [] then []
    else
      var c := s[0];
      [if !IsCased(c) then c else if afterLetter then Lower(c) else Upper(c)]
        + TitleFrom(s[1..], IsCased(c))
  }

  /** `str.title()`: each letter is upper case when it starts a run of
      letters and lower case inside one; other characters stay. */
  function Title(s: string): (r: string)
    ensures |r| == |s|
  {
    TitleFrom(s, false)
  }

  /** What `title()` does to the character at position i. */
  function TitleAt(s: string, i: nat): char
    requires i < |s|
  {
    if !IsCased(s[i]) then s[i]
    else if i > 0 && IsCased(s[i - 1]) then Lower(s[i])
    else Upper(s[i])
  }

  lemma {:induction false} TitleFromSpec(s: string, afterLetter: bool)
    ensures forall i :: 0 < i < |s| ==> TitleFrom(s, afterLetter)[i] == TitleAt(s, i)
    ensures s != [] ==>
              (TitleFrom(s, afterLetter)[0] ==
               if !IsCased(s[0]) then s[0] else if afterLetter then Lower(s[0]) else Upper(s[0]))
  {
    if s != [] {
      var t := s[1..];
      TitleFromSpec(t, IsCased(s[0]));
      forall i | 0 < i < |s| ensures TitleFrom(s, afterLetter)[i] == TitleAt(s, i) {
        assert TitleFrom(s, afterLetter)[i] == TitleFrom(t, IsCased(s[0]))[i - 1];
        if i > 1 {
          assert TitleAt(t, i - 1) == TitleAt(s, i);
        }
      }
    }
  }

  /** Position by position, `title()` upper-cases the first letter of every
      run of letters, lower-cases the others, and keeps everything else. */
  lemma TitleSpec(s: string)
    ensures forall i :: 0 <= i < |s| ==> Title(s)[i] == TitleAt(s, i)
  {
    TitleFromSpec(s, false);
  }

  /** Applying `title()` twice is applying it once. */
  lemma TitleIdempotent(s: string)
    ensures Title(Title(s)) == Title(s)
  {
    var t := Title(s);
    TitleSpec(s);
    TitleSpec(t);
    forall i | 0 <= i < |s| ensures Title(t)[i] == t[i] {
      assert IsCased(t[i]) == IsCased(s[i]);
      if i > 0 {
        assert IsCased(t[i - 1]) == IsCased(s[i - 1]);
      }
    }
  }

  /** `s.replace(a, b)` for single characters. */
  function ReplaceChar(s: string, a: char, b: char): (r: string)
    ensures |r| == |s|
    ensures forall i :: 0 <= i < |s| ==> r[i] == (if s[i] == a then b else s[i])
  {
    if s == [] then [] else [if s[0] == a then b else s[0]] + ReplaceChar(s[1..], a, b)
  }

  /** The display name of a category, from its slug. */
  function CategoryName(slug: string): string {
    Title(ReplaceChar(slug, '-', ' '))
  }

  /** The display name has a space for every hyphen of the slug and no hyphen
      left; each letter is upper case exactly when it starts a word. */
  lemma CategoryNameSpec(slug: string)
    ensures |CategoryName(slug)| == |slug|
    ensures forall i :: 0 <= i < |slug| ==> (CategoryName(slug)[i] == ' ' <==> slug[i] == '-' || slug[i] == ' ')
    ensures '-' !in CategoryName(slug)
    ensures forall i :: 0 <= i < |slug| && IsCased(slug[i]) ==>
              (IsUpper(CategoryName(slug)[i]) <==> i == 0 || !IsCased(slug[i - 1]))
  {
    var spaced := ReplaceChar(slug, '-', ' ');
    TitleSpec(spaced);
    forall i | 0 <= i < |slug|
      ensures CategoryName(slug)[i] != '-'
      ensures CategoryName(slug)[i] == ' ' <==> slug[i] == '-' || slug[i] == ' '
    {
      assert CategoryName(slug)[i] == TitleAt(spaced, i);
    }
    forall i | 0 <= i < |slug| && IsCased(slug[i])
      ensures IsUpper(CategoryName(slug)[i]) <==> i == 0 || !IsCased(slug[i - 1])
    {
      assert CategoryName(slug)[i] == TitleAt(spaced, i);
      if i > 0 {
        assert IsCased(spaced[i - 1]) == IsCased(slug[i - 1]);
      }
    }
  }

  const MessageHead := "No products available in the '"
  const MessageTail := "' category. Please check back later!"

  /** The message for a category that does not exist, is inactive, or has
      no products. */
  function NoProductsMessage(slug: string): (m: string)
    ensures |m| == |MessageHead| + |slug| + |MessageTail|
    ensures m[..|MessageHead|] == MessageHead && m[|m| - |MessageTail|..] == MessageTail
    ensures m[|MessageHead|..|m| - |MessageTail|] == CategoryName(slug)
  {
    MessageHead + CategoryName(slug) + MessageTail
  }

  /** The message gives the category's display name between fixed texts, so
      two slugs give the same message exactly when they give the same name. */
  lemma MessageNamesCategory(a: string, b: string)
    ensures NoProductsMessage(a)[|MessageHead|..|NoProductsMessage(a)| - |MessageTail|] == CategoryName(a)
    ensures NoProductsMessage(a) == NoProductsMessage(b) <==> CategoryName(a) == CategoryName(b)
  {
    var m, n := NoProductsMessage(a), NoProductsMessage(b);
    assert m[|MessageHead|..|m| - |MessageTail|] == CategoryName(a);
    assert n[|MessageHead|..|n| - |MessageTail|] == CategoryName(b);
  }

  // ------------------------------------------------------------- shop page

  /** The products of one category and its carousel slides. */
  datatype Group<P> = Group(products: seq<P>, slideNumbers: seq<int>, slides: int)

  /** What the shop page shows: the groups, or a message. */
  datatype Page<P> = Page(groups: seq<Group<P>>, message: Option<string>)

  const NothingAtAll := "No products available at the moment. Please check back later!"

  function GroupOf<P>(ps: seq<P>): (g: Group<P>)
    ensures g.products == ps
  {
    var k := SlideCount(|ps|);
    Group(ps, Range1(k), k)
  }

  /** The page for a category slug; `found` is the active category's
      products, `None` when no active category has that slug. */
  function CategoryPage<P>(slug: string, found: Option<seq<P>>): Page<P>
  {
    if found.None? || found.value == [] then Page([], Some(NoProductsMessage(slug)))
    else Page([GroupOf(found.value)], None)
  }

  /** The page over all active categories, one group per category, empty
      ones included. */
  function AllPage<P>(categories: seq<seq<P>>): Page<P>
  {
    var groups := seq(|categories|, i requires 0 <= i < |categories| => GroupOf(categories[i]));
    Page(groups, if groups == [] then Some(NothingAtAll) else None)
  }

  /** The shop page: a non-empty slug selects one category. */
  function ShopPage<P>(category: Option<string>, found: Option<seq<P>>, categories: seq<seq<P>>): Page<P>
  {
    if category.Some? && category.value != [] then CategoryPage(category.value, found)
    else AllPage(categories)
  }

  /** There is a message exactly when there is no group; a selected category
      that is missing, inactive or empty gets the message built from its slug,
      and without a selection one group per active category is shown. */
  lemma ShopPageSpec<P>(category: Option<string>, found: Option<seq<P>>, categories: seq<seq<P>>)
    ensures var p := ShopPage(category, found, categories);
      (p.message.None? <==> p.groups != []) &&
      (category.Some? && category.value != [] ==>
         (p.message == Some(NoProductsMessage(category.value)) <==> found.None? || found.value == [])) &&
      (category.None? || category.value == [] ==>
         |p.groups| == |categories| &&
         forall i :: 0 <= i < |categories| ==>
           p.groups[i].products == categories[i] && p.groups[i].slides == (|categories[i]| + 3) / 4)
  {
    var p := ShopPage(category, found, categories);
    if category.Some? && category.value != [] {
      if found.Some? && found.value != [] {
        SlideCountIsCeiling(|found.value|);
      }
    } else {
      forall i | 0 <= i < |categories| ensures p.groups[i].slides == (|categories[i]| + 3) / 4 {
        SlideCountIsCeiling(|categories[i]|);
      }
    }
  }

  // --------------------------------------------------------------- checkout

  /** Who is making the request. */
  datatype Visitor = Anonymous | SignedIn(id: UserId)

  /** The checkout form as posted, with the defaults for missing fields
      already filled in. */
  datatype CheckoutForm = CheckoutForm(
    itemsJson: string, contact: Contact, paymentMethod: string,
    shippingMethod: string, shippingCost: string)

  /** An order has no payment recorded on it. */
  predicate Unpaid(r: OrderRecord) {
    r.oid == "" && r.amountPaid.None? && r.paymentStatus == "" && r.payidProof.None?
  }

  /** The order checkout creates, before any payment step. */
  function PlacedRecord(id: nat, form: CheckoutForm, amount: Amount, visitor: Visitor): (r: OrderRecord)
    ensures r.orderId == id && r.itemsJson == form.itemsJson && r.amount == amount
    ensures r.contact == form.contact && r.shippingMethod == form.shippingMethod
    ensures r.user.Some? <==> visitor.SignedIn?
    ensures visitor.SignedIn? ==> r.user == Some(visitor.id)
    ensures r.isGuestOrder <==> r.user.None?
    ensures form.shippingCost == "" ==> r.shippingCost == "0"
    ensures form.shippingCost != "" ==> r.shippingCost == form.shippingCost
    ensures r.status == DefaultStatus && Unpaid(r)
  {
    OrderRecord(
      orderId := id, itemsJson := form.itemsJson, amount := amount, contact := form.contact,
      oid := "", amountPaid := None, paymentStatus := "", payidProof := None,
      user := if visitor.SignedIn? then Some(visitor.id) else None,
      isGuestOrder := !visitor.SignedIn?, status := DefaultStatus,
      shippingMethod := form.shippingMethod,
      shippingCost := if form.shippingCost == "" then "0" else form.shippingCost)
  }

  /** The order after the customer chose to pay by PayID. */
  function WithPayId(o: OrderRecord, upload: Option<FileRef>): (r: OrderRecord)
    ensures SameOrderDetails(o, r) && r.oid == o.oid && r.amountPaid == o.amountPaid
    ensures r.paymentStatus == "PayID"
    ensures upload.Some? ==> r.payidProof == upload
    ensures upload.None? ==> r.payidProof == o.payidProof
  {
    o.(paymentStatus := "PayID", payidProof := if upload.Some? then upload else o.payidProof)
  }

  /** The order as checkout leaves it. */
  function CheckoutRecord(id: nat, form: CheckoutForm, amount: Amount, visitor: Visitor, upload: Option<FileRef>): OrderRecord
  {
    var o := PlacedRecord(id, form, amount, visitor);
    if form.paymentMethod == "payid" then WithPayId(o, upload) else o
  }

  /** Checkout keeps everything the customer entered; only PayID records a
      payment step, and it records the proof exactly when one was uploaded.
      With PayPal or any other choice the order has no payment on it. */
  lemma CheckoutPayment(id: nat, form: CheckoutForm, amount: Amount, visitor: Visitor, upload: Option<FileRef>)
    ensures var r := CheckoutRecord(id, form, amount, visitor, upload);
      SameOrderDetails(PlacedRecord(id, form, amount, visitor), r) &&
      (form.paymentMethod != "payid" <==> Unpaid(r)) &&
      (form.paymentMethod == "payid" ==>
         r.paymentStatus == "PayID" && r.payidProof == upload && r.oid == "" && r.amountPaid.None?)
  {
    var o := PlacedRecord(id, form, amount, visitor);
    if form.paymentMethod == "payid" {
      assert WithPayId(o, upload).paymentStatus == "PayID";
    }
  }

  /** Records the PayID choice on an order. */
  method RecordPayId(o: Order, upload: Option<FileRef>)
    modifies o
    ensures o.Snapshot() == WithPayId(old(o.Snapshot()), upload)
  {
    if upload.Some? {
      o.payidProof := upload;
    }
    o.paymentStatus := "PayID";
  }

  /** Handles the checkout form. Nothing is created for a request that is
      not a post, or when the amount is missing or not a number (`float()`
      raises before the order exists); otherwise the order is created first,
      with the next free id, and then the payment choice is applied. The
      outcome of the PayPal request changes no field of the order. */
  method Checkout(isPost: bool, form: CheckoutForm, amount: Option<Amount>, visitor: Visitor,
                  upload: Option<FileRef>, nextId: nat) returns (placed: Order?)
    ensures placed != null <==> isPost && amount.Some?
    ensures placed != null ==>
              fresh(placed) && placed.Snapshot() == CheckoutRecord(nextId, form, amount.value, visitor, upload)
  {
    if !isPost || amount.None? {
      return null;
    }
    placed := new Order(PlacedRecord(nextId, form, amount.value, visitor));
    if form.paymentMethod == "payid" {
      RecordPayId(placed, upload);
    }
  }

  // ------------------------------------------------------ payment callback

  /** What executing the approved PayPal payment gives. */
  datatype Execution = Executed | Declined | Raised

  /** The form of the direct confirmation, posted without PayPal's query
      parameters. */
  datatype PaymentForm = PaymentForm(
    transactionId: string, itemsJson: string, amount: Amount, amountPaid: Option<string>,
    contact: Contact, shippingMethod: string, shippingCost: string)

  /** A query parameter that is present and not empty. */
  predicate Given(p: Option<string>) {
    p.Some? && p.value != ""
  }

  /** The order after PayPal confirmed its payment. */
  function PaidByPayPal(o: OrderRecord, paymentId: string): (r: OrderRecord)
    ensures SameOrderDetails(o, r) && r.payidProof == o.payidProof
    ensures r.paymentStatus == "Paid" && r.oid == paymentId && r.amountPaid == Some(o.amount)
  {
    o.(paymentStatus := "Paid", oid := paymentId, amountPaid := Some(o.amount))
  }

  /** The separate order the direct confirmation creates. */
  function DirectRecord(id: nat, form: PaymentForm, visitor: Visitor): (r: OrderRecord)
    ensures r.orderId == id && r.itemsJson == form.itemsJson && r.amount == form.amount
    ensures r.contact == form.contact && r.shippingMethod == form.shippingMethod
    ensures r.paymentStatus == "Success" && r.oid == form.transactionId && r.amountPaid == form.amountPaid
    ensures r.payidProof.None? && r.status == DefaultStatus
    ensures r.user.Some? <==> visitor.SignedIn?
    ensures visitor.SignedIn? ==> r.user == Some(visitor.id)
    ensures r.isGuestOrder <==> r.user.None?
    ensures form.shippingCost == "" ==> r.shippingCost == "0"
    ensures form.shippingCost != "" ==> r.shippingCost == form.shippingCost
  {
    OrderRecord(
      orderId := id, itemsJson := form.itemsJson, amount := form.amount, contact := form.contact,
      oid := form.transactionId, amountPaid := form.amountPaid, paymentStatus := "Success",
      payidProof := None,
      user := if visitor.SignedIn? then Some(visitor.id) else None,
      isGuestOrder := !visitor.SignedIn?, status := DefaultStatus,
      shippingMethod := form.shippingMethod,
      shippingCost := if form.shippingCost == "" then "0" else form.shippingCost)
  }

  /** Records a confirmed PayPal payment on an order. */
  method RecordPayPal(o: Order, paymentId: string)
    modifies o
    ensures o.Snapshot() == PaidByPayPal(old(o.Snapshot()), paymentId)
  {
    o.paymentStatus := "Paid";
    o.oid := paymentId;
    o.amountPaid := Some(o.amount);
  }

  /** Handles the return from payment. `sessionOrderId` is the id checkout
      left in the session and `found` the order with that id, if any. With
      no id in the session, or no such order, nothing changes. When PayPal's
      two parameters are present the order is marked paid if the payment
      executes, and kept as it is if it is declined or raises. Otherwise the
      posted form creates a separate new order. */
  method PaymentSuccess(sessionOrderId: Option<int>, found: Order?, paymentId: Option<string>,
                        payerId: Option<string>, execution: Execution, form: PaymentForm,
                        visitor: Visitor, nextId: nat) returns (created: Order?)
    requires found != null ==> sessionOrderId == Some(found.orderId)
    modifies found
    ensures found != null && paymentId.Some? && Given(paymentId) && Given(payerId) &&
            execution == Executed && sessionOrderId != Some(0) ==>
              found.Snapshot() == PaidByPayPal(old(found.Snapshot()), paymentId.value)
    ensures found != null && !(Given(paymentId) && Given(payerId) && execution == Executed &&
                               sessionOrderId != Some(0)) ==>
              found.Snapshot() == old(found.Snapshot())
    ensures created != null <==>
              found != null && sessionOrderId != Some(0) && !(Given(paymentId) && Given(payerId))
    ensures created != null ==> fresh(created) && created.Snapshot() == DirectRecord(nextId, form, visitor)
  {
    if sessionOrderId.None? || sessionOrderId.value == 0 || found == null {
      return null;
    }
    if Given(paymentId) && Given(payerId) {
      if execution == Executed {
        RecordPayPal(found, paymentId.value);
      }
      return null;
    }
    created := new Order(DirectRecord(nextId, form, visitor));
  }

  // ---------------------------------------------------- owner notification

  /** The fields the notification to the shop owner derives from an order. */
  datatype AdminNotice = AdminNotice(
    subject: string, paymentStatus: string, orderStatus: string, userType: string,
    proofUrl: Option<string>, adminUrl: string)

  const SubjectHead := "New Order Notification - Order #"
  const AdminPageHead := "https://abadas.vercel.app/abadas-admin/shop/order/"

  /** The notice for an order; `url` gives a stored file's address. It never
      shows a blank payment status: an order without one shows "Pending". The
      user type says "Registered User" exactly when the order has a user, and
      "Guest User" otherwise. */
  function Notice(o: OrderRecord, url: FileRef -> string): (n: AdminNotice)
    ensures n.paymentStatus != ""
    ensures o.paymentStatus == "" ==> n.paymentStatus == "Pending"
    ensures o.paymentStatus != "" ==> n.paymentStatus == o.paymentStatus
    ensures n.userType == "Registered User" <==> o.user.Some?
    ensures n.userType == "Guest User" <==> o.user.None?
    ensures n.proofUrl.Some? <==> o.payidProof.Some?
    ensures n.orderStatus == Code(o.status)
  {
    AdminNotice(
      subject := SubjectHead + DecimalText(o.orderId),
      paymentStatus := if o.paymentStatus == "" then "Pending" else o.paymentStatus,
      orderStatus := Code(o.status),
      userType := if o.user.Some? then "Registered User" else "Guest User",
      proofUrl := if o.payidProof.Some? then Some(url(o.payidProof.value)) else None,
      adminUrl := AdminPageHead + DecimalText(o.orderId) + "/change/")
  }

  /** The subject names the order: its id can be read back from it. */
  lemma NoticeNamesOrder(o: OrderRecord, url: FileRef -> string)
    ensures var s := Notice(o, url).subject;
      |s| > |SubjectHead| && s[..|SubjectHead|] == SubjectHead &&
      (forall k :: |SubjectHead| <= k < |s| ==> IsDigit(s[k])) &&
      DigitsValue(s[|SubjectHead|..]) == o.orderId
  {
    var s := Notice(o, url).subject;
    assert s[|SubjectHead|..] == DecimalText(o.orderId);
    DecimalTextRoundTrip(o.orderId);
  }

  /** The notice sent after a PayID checkout shows "PayID", and calls the
      customer a guest exactly when the order is a guest order. */
  lemma PayIdCheckoutNotice(id: nat, form: CheckoutForm, amount: Amount, visitor: Visitor,
                            upload: Option<FileRef>, url: FileRef -> string)
    requires form.paymentMethod == "payid"
    ensures var r := CheckoutRecord(id, form, amount, visitor, upload);
      Notice(r, url).paymentStatus == "PayID" &&
      (Notice(r, url).userType == "Guest User" <==> r.isGuestOrder) &&
      (Notice(r, url).proofUrl.Some? <==> upload.Some?)
  {
    CheckoutPayment(id, form, amount, visitor, upload);
  }

  /** The notice sent after a PayPal payment shows "Paid". */
  lemma PayPalNotice(o: OrderRecord, paymentId: string, url: FileRef -> string)
    ensures Notice(PaidByPayPal(o, paymentId), url).paymentStatus == "Paid"
    ensures Notice(PaidByPayPal(o, paymentId), url).userType == Notice(o, url).userType
  {
  }
}
