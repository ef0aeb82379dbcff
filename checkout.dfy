/**
 * The checkout surface: the payment-method list and the lookup of the chosen
 * method, the validity of the details step and the two-step flow, and the
 * order text handed to the messaging link, with its one line per cart line.
 */
module Checkout {
  import opened Wrappers
  import opened Catalog
  import opened Text

  // --------------------------------------------------------- payment methods

  datatype PaymentMethod = PaymentMethod(id: string, name: string)

  /** The three methods always offered after the fetched ones. */
  const GcashMaya: PaymentMethod := PaymentMethod("gcash-maya", "Gcash/Maya")
  const BankTransfer: PaymentMethod := PaymentMethod("bank-transfer", "Bank Transfer")
  const Cash: PaymentMethod := PaymentMethod("cash", "Cash (Onsite)")

  /** `effectivePaymentMethods`: the fetched methods, then Gcash/Maya, bank transfer and cash. */
  function EffectivePaymentMethods(fetched: seq<PaymentMethod>): (r: seq<PaymentMethod>)
    ensures |r| == |fetched| + 3 && r != []
    ensures r[..|fetched|] == fetched && r[|fetched|..] == [GcashMaya, BankTransfer, Cash]
  {
    fetched + [GcashMaya, BankTransfer, Cash]
  }

  /** `methods.find(m => m.id === id)`: the first method with this id. */
  function FindMethod(methods: seq<PaymentMethod>, id: string): (r: Option<PaymentMethod>)
    ensures r.None? <==> forall k :: 0 <= k < |methods| ==> methods[k].id != id
    ensures r.Some? ==> exists k :: 0 <= k < |methods| && methods[k] == r.value && r.value.id == id &&
                                    forall j :: 0 <= j < k ==> methods[j].id != id
  {
    if methods == [] then None
    else if methods[0].id == id then Some(methods[0])
    else
      assert forall k :: 1 <= k < |methods| ==> methods[k] == methods[1..][k - 1];
      FindMethod(methods[1..], id)
  }

  lemma {:induction false} FindMethodAppend(a: seq<PaymentMethod>, b: seq<PaymentMethod>, id: string)
    ensures FindMethod(a + b, id) == if FindMethod(a, id).Some? then FindMethod(a, id) else FindMethod(b, id)
  {
    if a != [] {
      assert (a + b)[1..] == a[1..] + b;
      FindMethodAppend(a[1..], b, id);
    } else {
      assert a + b == b;
    }
  }

  /** A fetched method shadows a built-in one with the same id; otherwise the built-in one is found. */
  lemma EffectiveLookup(fetched: seq<PaymentMethod>, id: string)
    ensures FindMethod(fetched, id).Some? ==>
      FindMethod(EffectivePaymentMethods(fetched), id) == FindMethod(fetched, id)
    ensures FindMethod(fetched, id).None? ==>
      FindMethod(EffectivePaymentMethods(fetched), id) == FindMethod([GcashMaya, BankTransfer, Cash], id)
  {
    FindMethodAppend(fetched, [GcashMaya, BankTransfer, Cash], id);
  }

  /** The three built-in ids are always found, so their selection is never missing. */
  lemma BuiltInAlwaysFound(fetched: seq<PaymentMethod>, id: string)
    requires id == GcashMaya.id || id == BankTransfer.id || id == Cash.id
    ensures FindMethod(EffectivePaymentMethods(fetched), id).Some?
  {
    var r := EffectivePaymentMethods(fetched);
    var k := if id == GcashMaya.id then |fetched| else if id == BankTransfer.id then |fetched| + 1 else |fetched| + 2;
    assert r[k].id == id;
  }

  /**
   * `selectedPaymentMethod?.name || paymentMethod`: the name of the first method with
   * the chosen id when that name is not empty, otherwise the raw id.
   */
  function PaymentText(methods: seq<PaymentMethod>, paymentMethod: string): (r: string)
    ensures (forall k :: 0 <= k < |methods| ==> methods[k].id != paymentMethod) ==> r == paymentMethod
    ensures forall k :: 0 <= k < |methods| && methods[k].id == paymentMethod &&
                        (forall j :: 0 <= j < k ==> methods[j].id != paymentMethod)
                        ==> r == if methods[k].name != "" then methods[k].name else paymentMethod
  {
    FindMethodFirst(methods, paymentMethod);
    match FindMethod(methods, paymentMethod)
    case Some(m) => if m.name != "" then m.name else paymentMethod
    case None => paymentMethod
  }

  /** The first index holding the id is the one `find` returns. */
  lemma FindMethodFirst(methods: seq<PaymentMethod>, id: string)
    ensures forall k :: 0 <= k < |methods| && methods[k].id == id &&
                        (forall j :: 0 <= j < k ==> methods[j].id != id)
                        ==> FindMethod(methods, id) == Some(methods[k])
  {
    forall k | 0 <= k < |methods| && methods[k].id == id && (forall j :: 0 <= j < k ==> methods[j].id != id)
      ensures FindMethod(methods, id) == Some(methods[k])
    {
      var m := FindMethod(methods, id);
      var k' :| 0 <= k' < |methods| && methods[k'] == m.value && m.value.id == id &&
                forall j :: 0 <= j < k' ==> methods[j].id != id;
      assert k' == k;
    }
  }

  /**
   * The effect that fills in a missing choice: with a non-empty list and no
   * choice, take the first method's id, or `cash` when that id is empty.
   */
  function DefaultPaymentMethod(methods: seq<PaymentMethod>, current: string): (r: string)
    ensures current != "" ==> r == current
    ensures current == "" && methods != [] ==> r != ""
    ensures current == "" && methods != [] && methods[0].id != "" ==> r == methods[0].id
    ensures current == "" && methods != [] && methods[0].id == "" ==> r == "cash"
    ensures methods == [] ==> r == current
  {
    if |methods| > 0 && current == "" then (if methods[0].id != "" then methods[0].id else "cash")
    else current
  }

  /** Over the effective list the choice is never left empty. */
  lemma DefaultPaymentNeverEmpty(fetched: seq<PaymentMethod>, current: string)
    ensures DefaultPaymentMethod(EffectivePaymentMethods(fetched), current) != ""
  {
  }

  // ----------------------------------------------------------- details step

  /** The form fields of the checkout. */
  datatype Details = Details(
    customerName: string,
    contactNumber: string,
    serviceType: string,
    address: string,
    landmark: string,
    paymentMethod: string,
    notes: string)

  /** The form as it starts: pickup, Gcash/Maya, everything else empty. */
  const InitialDetails: Details := Details("", "", "pickup", "", "", "gcash-maya", "")

  /**
   * `isDetailsValid`: name and contact filled in, and an address for delivery. No
   * trimming. The landmark, the payment method and the notes play no part.
   */
  predicate IsDetailsValid(d: Details): (valid: bool)
    ensures valid ==> d.customerName != "" && d.contactNumber != ""
    ensures d.serviceType != "delivery" && d.customerName != "" && d.contactNumber != "" ==> valid
    ensures d.serviceType == "delivery" ==> (valid <==> d.customerName != "" && d.contactNumber != "" && d.address != "")
  {
    d.customerName != "" && d.contactNumber != "" && (d.serviceType != "delivery" || d.address != "")
  }

  /**
   * Whitespace counts as filled in: a name and a contact that trim to nothing still
   * pass; delivery without an address does not; the initial form does not.
   */
  lemma DetailsValidity(d: Details)
    ensures d.customerName != "" && d.contactNumber != "" && Trim(d.customerName) == [] &&
            Trim(d.contactNumber) == [] && d.serviceType != "delivery"
            ==> IsDetailsValid(d)
    ensures d.customerName != "" && d.contactNumber != "" && d.address != "" && Trim(d.customerName) == [] &&
            Trim(d.contactNumber) == [] && Trim(d.address) == [] && d.serviceType == "delivery"
            ==> IsDetailsValid(d)
    ensures d.serviceType == "delivery" && d.address == "" ==> !IsDetailsValid(d)
    ensures !IsDetailsValid(InitialDetails)
  {
  }

  datatype Step = DetailsStep | PaymentStep

  /** The two-step checkout flow. */
  class Session {
    var step: Step
    var details: Details

    /** The payment step is only ever shown for valid details. */
    ghost predicate Valid()
      reads this
    {
      step == PaymentStep ==> IsDetailsValid(details)
    }

    constructor ()
      ensures step == DetailsStep && details == InitialDetails && Valid()
    {
      step := DetailsStep;
      details := InitialDetails;
    }

    /**
     * One of the six form fields changes; the form is only on the details step,
     * and the payment method is not one of its fields.
     */
    method EditDetails(d: Details)
      requires Valid() && step == DetailsStep && d.paymentMethod == details.paymentMethod
      modifies this`details
      ensures details == d && Valid()
    {
      details := d;
    }

    /** "Proceed to Payment": the button is disabled while the details are invalid. */
    method ProceedToPayment()
      requires Valid()
      modifies this`step
      ensures step == (if IsDetailsValid(details) then PaymentStep else old(step))
      ensures Valid()
    {
      if IsDetailsValid(details) {
        step := PaymentStep;
      }
    }

    /** The back arrow of the payment step. */
    method BackToDetails()
      requires Valid()
      modifies this`step
      ensures step == DetailsStep && Valid()
    {
      step := DetailsStep;
    }

    /** Choosing a payment method; validity does not depend on it. */
    method SelectPaymentMethod(id: string)
      requires Valid()
      modifies this`details
      ensures details == old(details).(paymentMethod := id) && Valid()
    {
      details := details.(paymentMethod := id);
    }

    /** The effect that fills in a missing payment method from the effective list. */
    method SettlePaymentMethod(fetched: seq<PaymentMethod>)
      requires Valid()
      modifies this`details
      ensures details == old(details).(paymentMethod := DefaultPaymentMethod(EffectivePaymentMethods(fetched), old(details).paymentMethod))
      ensures details.paymentMethod != "" && Valid()
    {
      details := details.(paymentMethod := DefaultPaymentMethod(EffectivePaymentMethods(fetched), details.paymentMethod));
    }
  }

  // ------------------------------------------------------------ order text

  /** An add-on in the order text: `name xN` when it carries a quantity above 1, else just `name`. */
  function AddOnLabel(a: AddOn): (r: string)
    ensures |r| >= |a.name| && r[..|a.name|] == a.name
    ensures !(a.quantity.Some? && a.quantity.value > 1) ==> r == a.name
  {
    if a.quantity.Some? && a.quantity.value > 1 then a.name + " x" + NatToString(a.quantity.value)
    else a.name
  }

  /** A count above 1 can be read back from what follows the name. */
  lemma AddOnLabelReadsBack(a: AddOn)
    ensures a.quantity.Some? && a.quantity.value > 1 ==>
      var rest := AddOnLabel(a)[|a.name|..];
      |rest| > 2 && rest[..2] == " x" &&
      (forall k :: 2 <= k < |rest| ==> '0' <= rest[k] <= '9') &&
      ParseNat(rest[2..]) == a.quantity.value
  {
    if a.quantity.Some? && a.quantity.value > 1 {
      var digits := NatToString(a.quantity.value);
      assert AddOnLabel(a)[|a.name|..] == " x" + digits;
      assert (" x" + digits)[2..] == digits;
      ParseNatToString(a.quantity.value);
    }
  }

  const Bullet: string := "\U{2022} "

  function AddOnLabels(addOns: seq<AddOn>): (r: seq<string>)
    ensures |r| == |addOns| && forall i :: 0 <= i < |addOns| ==> r[i] == AddOnLabel(addOns[i])
  {
    seq(|addOns|, i requires 0 <= i < |addOns| => AddOnLabel(addOns[i]))
  }

  /**
   * The text of one cart line: `• name`, then ` (variation)`, then ` + ` and the add-on
   * labels. Every line starts with the bullet and the name, and a plain line is just that.
   */
  function ItemLine(item: CartItem): (r: string)
    ensures |r| >= |Bullet + item.name| && r[..|Bullet + item.name|] == Bullet + item.name
    ensures item.selectedVariation.None? && item.selectedAddOns == [] ==> r == Bullet + item.name
  {
    Bullet + item.name
    + (if item.selectedVariation.Some? then " (" + item.selectedVariation.value.name + ")" else "")
    + (if |item.selectedAddOns| > 0 then " + " + Join(AddOnLabels(item.selectedAddOns), ", ") else "")
  }

  /** No text of the line, names included, holds a line break, so neither does the line. */
  predicate SingleLineNames(item: CartItem) {
    '\n' !in item.name
    && (item.selectedVariation.Some? ==> '\n' !in item.selectedVariation.value.name)
    && forall i :: 0 <= i < |item.selectedAddOns| ==> '\n' !in item.selectedAddOns[i].name
  }

  lemma ItemLineIsOneLine(item: CartItem)
    requires SingleLineNames(item)
    ensures '\n' !in ItemLine(item)
  {
    var labels := AddOnLabels(item.selectedAddOns);
    forall i | 0 <= i < |labels| ensures '\n' !in labels[i] {
      var a := item.selectedAddOns[i];
      if a.quantity.Some? && a.quantity.value > 1 {
        var digits := NatToString(a.quantity.value);
        assert '\n' !in digits;
      }
    }
    JoinAvoids(labels, ", ", '\n');
  }

  function ItemLines(cart: seq<CartItem>): (r: seq<string>)
    ensures |r| == |cart| && forall i :: 0 <= i < |cart| ==> r[i] == ItemLine(cart[i])
  {
    seq(|cart|, i requires 0 <= i < |cart| => ItemLine(cart[i]))
  }

  /** The item section: the lines of the cart joined by line breaks. */
  function ItemsSection(cart: seq<CartItem>): string {
    Join(ItemLines(cart), "\n")
  }

  /** The item section has exactly one line per cart line, in cart order. */
  lemma ItemsSectionLines(cart: seq<CartItem>)
    requires cart != []
    requires forall i :: 0 <= i < |cart| ==> SingleLineNames(cart[i])
    ensures Split(ItemsSection(cart), '\n') == ItemLines(cart)
  {
    var lines := ItemLines(cart);
    forall i | 0 <= i < |lines| ensures '\n' !in lines[i] {
      ItemLineIsOneLine(cart[i]);
    }
    SplitJoin(lines, '\n');
  }

  /** Line quantities do not appear in the item section. */
  lemma ItemsSectionIgnoresQuantities(cart: seq<CartItem>, cart': seq<CartItem>)
    requires |cart| == |cart'|
    requires forall i :: 0 <= i < |cart| ==> cart'[i] == cart[i].(quantity := cart'[i].quantity)
    ensures ItemsSection(cart) == ItemsSection(cart')
  {
    assert ItemLines(cart) == ItemLines(cart');
  }

  const OrderHeading: string := "\U{1F6D2} Botika RBT INQUIRY"
  const CustomerLabel: string := "\U{1F464} Customer: "
  const ContactLabel: string := "\U{1F4DE} Contact: "
  const ServiceLabel: string := "\U{1F4CD} Service: "
  const AddressLabel: string := "\U{1F3E0} Address: "
  const LandmarkLabel: string := "\U{1F5FA}\U{FE0F} Landmark: "
  const DetailsHeading: string := "\U{1F4CB} INQUIRY DETAILS:"
  const DeliveryMark: string := "\U{1F6F5} DELIVERY"
  const PaymentLabel: string := "\U{1F4B3} Payment: "
  const NotesLabel: string := "\U{1F4DD} Notes: "
  const OrderFooter: string := "Please confirm this inquiry to proceed. Thank you for choosing Botika RBT! \U{1F48A}"

  /** The address part: only for delivery, with the landmark on its own line when there is one. */
  function DeliveryBlock(d: Details): string {
    if d.serviceType == "delivery" then
      AddressLabel + d.address + (if d.landmark != "" then "\n" + LandmarkLabel + d.landmark else "")
    else ""
  }

  /** The lines between the heading and the item list: customer, contact, service, address. */
  function CustomerPart(d: Details): string {
    "\n\n"
    + CustomerLabel + d.customerName + "\n"
    + ContactLabel + d.contactNumber + "\n"
    + ServiceLabel + Capitalize(d.serviceType) + "\n"
    + DeliveryBlock(d) + "\n\n\n"
  }

  /** The lines between the item list and the footer: delivery mark, payment, notes. */
  function ClosingPart(d: Details, fetched: seq<PaymentMethod>): string {
    (if d.serviceType == "delivery" then DeliveryMark else "") + "\n\n"
    + PaymentLabel + PaymentText(EffectivePaymentMethods(fetched), d.paymentMethod) + "\n\n"
    + (if d.notes != "" then NotesLabel + d.notes else "") + "\n\n"
  }

  /** The order text between the template's opening line break and its closing indentation. */
  function OrderBody(d: Details, cart: seq<CartItem>, fetched: seq<PaymentMethod>): (r: string)
    ensures |r| >= |OrderHeading| + |OrderFooter|
    ensures r[..|OrderHeading|] == OrderHeading && r[|r| - |OrderFooter|..] == OrderFooter
    ensures Contains(r, ItemsBlock(cart))
  {
    var r := OrderHeading + CustomerPart(d) + ItemsBlock(cart) + ClosingPart(d, fetched) + OrderFooter;
    SandwichShape(OrderHeading, CustomerPart(d), ItemsBlock(cart), ClosingPart(d, fetched), OrderFooter);
    r
  }

  /** A text made of five parts starts with the first, ends with the last and contains the middle one. */
  lemma {:induction false} SandwichShape(h: string, a: string, m: string, b: string, f: string)
    ensures var r := h + a + m + b + f;
      |r| >= |h| + |f| && r[..|h|] == h && r[|r| - |f|..] == f && Contains(r, m)
  {
    var r := h + a + m + b + f;
    assert r == (h + a) + m + (b + f);
    ContainsInfix(h + a, m, b + f);
    assert r[..|h|] == h;
    assert r[|r| - |f|..] == f;
  }

  /** The details heading and the item section, each followed by a line break. */
  function ItemsBlock(cart: seq<CartItem>): string {
    DetailsHeading + "\n" + ItemsSection(cart) + "\n"
  }

  /**
   * `orderDetails`: the template, from its opening line break to its closing
   * indentation, trimmed. Trimming removes only that line break and indentation, so
   * the text is the body, with the details heading and the item section inside it.
   */
  function OrderText(d: Details, cart: seq<CartItem>, fetched: seq<PaymentMethod>): (r: string)
    ensures r == OrderBody(d, cart, fetched)
    ensures Contains(r, ItemsBlock(cart))
  {
    var body := OrderBody(d, cart, fetched);
    EndsAreVisible(body);
    TrimSurrounded("\n", body, "\n    ");
    Trim("\n" + body + "\n    ")
  }

  /** The heading starts, and the footer ends, with a character trimming leaves alone. */
  lemma {:induction false} EndsAreVisible(body: string)
    requires |body| >= |OrderHeading| + |OrderFooter|
    requires body[..|OrderHeading|] == OrderHeading && body[|body| - |OrderFooter|..] == OrderFooter
    ensures body != [] && !IsWhitespace(body[0]) && !IsWhitespace(body[|body| - 1])
  {
    assert body[0] == OrderHeading[0] == '\U{1F6D2}';
    assert body[|body| - 1] == OrderFooter[|OrderFooter| - 1] == '\U{1F48A}';
  }

  /** For pickup the address and landmark fields do not reach the order text. */
  lemma NonDeliveryIgnoresAddress(d: Details, cart: seq<CartItem>, fetched: seq<PaymentMethod>, address: string, landmark: string)
    requires d.serviceType != "delivery"
    ensures OrderText(d, cart, fetched) == OrderText(d.(address := address, landmark := landmark), cart, fetched)
  {
  }

  /** Line quantities do not reach the order text. */
  lemma OrderTextIgnoresQuantities(d: Details, cart: seq<CartItem>, cart': seq<CartItem>, fetched: seq<PaymentMethod>)
    requires |cart| == |cart'|
    requires forall i :: 0 <= i < |cart| ==> cart'[i] == cart[i].(quantity := cart'[i].quantity)
    ensures OrderText(d, cart, fetched) == OrderText(d, cart', fetched)
  {
    ItemsSectionIgnoresQuantities(cart, cart');
  }
}
