/**
 * The quote-request page of src/pages/CartPage.tsx: the quantity controls
 * that forward to the cart, the contact form with its validation, and the
 * submit handler that either reports what is wrong or sends the request and
 * empties the cart.
 */
module Checkout {
  import opened Products
  import opened Seqs
  import opened Text
  import opened Cart

  // ---------------------------------------------------------------------------
  // Quantity controls

  /** `items.find(item => item.id === id)?.quantity ?? 0`: the first match's quantity. */
  function FoundQuantity(items: seq<CartItem>, id: string): int
  {
    if items == [] then 0
    else if items[0].product.id == id then items[0].quantity
    else FoundQuantity(items[1..], id)
  }

  /** The quantity found is the one of the first item with the id. */
  lemma {:induction false} FoundQuantityFirst(items: seq<CartItem>, id: string, i: nat)
    requires i < |items| && items[i].product.id == id
    requires forall k :: 0 <= k < i ==> items[k].product.id != id
    ensures FoundQuantity(items, id) == items[i].quantity
  {
    if i > 0 {
      assert items[0].product.id != id;
      forall k | 0 <= k < i - 1 ensures items[1..][k].product.id != id {
        assert items[1..][k] == items[k + 1];
      }
      FoundQuantityFirst(items[1..], id, i - 1);
    }
  }

  /** Without an item of that id, the quantity counts as 0. */
  lemma {:induction false} FoundQuantityAbsent(items: seq<CartItem>, id: string)
    requires !HasId(items, id)
    ensures FoundQuantity(items, id) == 0
  {
    if items != [] {
      assert items[0].product.id != id;
      forall k | 0 <= k < |items[1..]| ensures items[1..][k].product.id != id {
        assert items[1..][k] == items[k + 1];
      }
      FoundQuantityAbsent(items[1..], id);
    }
  }

  /** With unique ids, the quantity found is that of the one item with the id. */
  lemma FoundQuantityAt(items: seq<CartItem>, i: nat)
    requires IdsDistinct(items) && i < |items|
    ensures FoundQuantity(items, items[i].product.id) == items[i].quantity
  {
    forall k | 0 <= k < i ensures items[k].product.id != items[i].product.id {
      assert IdOf(items[k]) != IdOf(items[i]);
    }
    FoundQuantityFirst(items, items[i].product.id, i);
  }

  /** handleQuantityButton's request: `Math.max(0, current + delta)`. */
  function ButtonRequest(items: seq<CartItem>, id: string, delta: int): (n: int)
    ensures n >= 0
    ensures n >= FoundQuantity(items, id) + delta
    ensures n == 0 || n == FoundQuantity(items, id) + delta
  {
    var next := FoundQuantity(items, id) + delta;
    if next < 0 then 0 else next
  }

  /** A whole, non-negative request is kept as it is by the cart's clamp. */
  lemma ClampWhole(n: int)
    requires n >= 0
    ensures Clamp(n as real) == n
  {
  }

  /** What handleQuantityButton does to the list: request the new quantity from updateQuantity. */
  function Pressed(items: seq<CartItem>, id: string, delta: int): seq<CartItem>
  {
    QuantityUpdated(items, id, ButtonRequest(items, id, delta) as real)
  }

  /**
   * On a valid cart, pressing a button with step `delta` on item i sets its
   * quantity to `quantity + delta`, and removes the item when that is not positive.
   */
  lemma ButtonOnItem(items: seq<CartItem>, i: nat, delta: int)
    requires Cart.Valid(items) && i < |items|
    ensures Pressed(items, items[i].product.id, delta) ==
      if items[i].quantity + delta <= 0 then items[..i] + items[i + 1..]
      else items[i := items[i].(quantity := items[i].quantity + delta)]
  {
    var id, q := items[i].product.id, items[i].quantity;
    var n := ButtonRequest(items, id, delta);
    assert n == if q + delta <= 0 then 0 else q + delta by {
      FoundQuantityAt(items, i);
    }
    assert Clamp(n as real) == n by {
      ClampWhole(n);
    }
    var r := QuantityUpdated(items, id, n as real);
    assert Pressed(items, id, delta) == r;
    if n == 0 {
      assert r == items[..i] + items[i + 1..] by {
        QuantityUpdatedAt(items, i, n as real);
      }
    } else {
      assert r == items[i := items[i].(quantity := n)] by {
        QuantityUpdatedAt(items, i, n as real);
      }
    }
  }

  /** A button for an id that is not in a cart of positive quantities changes nothing. */
  lemma ButtonOnUnknown(items: seq<CartItem>, id: string, delta: int)
    requires QuantitiesPositive(items) && !HasId(items, id)
    ensures Pressed(items, id, delta) == items
  {
    QuantityUpdatedUnknown(items, id, ButtonRequest(items, id, delta) as real);
  }

  /**
   * The effect of a button on any cart of positive quantities, duplicate ids
   * included: a request of 0 removes every item with the id; otherwise every
   * item with the id gets the requested quantity in place.
   */
  lemma ButtonEffect(items: seq<CartItem>, id: string, delta: int)
    requires QuantitiesPositive(items)
    ensures var n := ButtonRequest(items, id, delta);
      n == 0 ==> Pressed(items, id, delta) == ItemRemoved(items, id)
    ensures var n, r := ButtonRequest(items, id, delta), Pressed(items, id, delta);
      n > 0 ==>
        |r| == |items| &&
        forall i :: 0 <= i < |items| ==>
          r[i] == if items[i].product.id == id then items[i].(quantity := n) else items[i]
  {
    var n := ButtonRequest(items, id, delta);
    assert Clamp(n as real) == n by {
      ClampWhole(n);
    }
    QuantityUpdatedEffect(items, id, n as real);
  }

  /** The + button raises the item's quantity by one. */
  lemma PlusOnItem(items: seq<CartItem>, i: nat)
    requires Cart.Valid(items) && i < |items|
    ensures Pressed(items, items[i].product.id, 1) == items[i := items[i].(quantity := items[i].quantity + 1)]
  {
    ButtonOnItem(items, i, 1);
  }

  /** The - button on an item with quantity above 1 lowers it by one. */
  lemma MinusOnItem(items: seq<CartItem>, i: nat)
    requires Cart.Valid(items) && i < |items| && items[i].quantity >= 2
    ensures Pressed(items, items[i].product.id, -1) == items[i := items[i].(quantity := items[i].quantity - 1)]
  {
    ButtonOnItem(items, i, -1);
  }

  /** After a raise by one, the quantity found for the item is the raised one. */
  lemma FoundAfterRaise(items: seq<CartItem>, i: nat)
    requires Cart.Valid(items) && i < |items|
    ensures FoundQuantity(items[i := items[i].(quantity := items[i].quantity + 1)], items[i].product.id) == items[i].quantity + 1
  {
    var x := items[i];
    var once := items[i := x.(quantity := x.quantity + 1)];
    forall k | 0 <= k < i ensures once[k].product.id != x.product.id {
      assert IdOf(items[k]) != IdOf(items[i]);
    }
    FoundQuantityFirst(once, x.product.id, i);
  }

  /** The - button undoes a raise by one. */
  lemma MinusAfterRaise(items: seq<CartItem>, i: nat)
    requires Cart.Valid(items) && i < |items|
    ensures Pressed(items[i := items[i].(quantity := items[i].quantity + 1)], items[i].product.id, -1) == items
  {
    var x := items[i];
    var once := items[i := x.(quantity := x.quantity + 1)];
    assert ButtonRequest(once, x.product.id, -1) == x.quantity by {
      FoundAfterRaise(items, i);
    }
    assert QuantityUpdated(once, x.product.id, x.quantity as real) == items by {
      QuantityUpdatedOverwrites(items, i, x.(quantity := x.quantity + 1), x.quantity as real);
      QuantityUpdatedSame(items, i);
    }
  }

  /** The + button and then the - button on the same item give the cart back. */
  lemma PlusThenMinus(items: seq<CartItem>, i: nat)
    requires Cart.Valid(items) && i < |items|
    ensures Pressed(Pressed(items, items[i].product.id, 1), items[i].product.id, -1) == items
  {
    PlusOnItem(items, i);
    MinusAfterRaise(items, i);
  }

  /** handleQuantityInput's request: NaN (None) is ignored, a number is raised to at least 0. */
  function InputRequest(value: Option<real>): (r: Option<real>)
    ensures r.None? <==> value.None?
    ensures r.Some? ==> r.value >= 0.0
    ensures r.Some? && value.value >= 0.0 ==> r.value == value.value
    ensures r.Some? && value.value < 0.0 ==> r.value == 0.0
  {
    match value
    case None => None
    case Some(v) => Some(if v < 0.0 then 0.0 else v)
  }

  /** Raising the typed value to 0 first changes nothing that the cart's own clamp would not. */
  lemma InputRequestSameUpdate(items: seq<CartItem>, id: string, v: real)
    ensures QuantityUpdated(items, id, InputRequest(Some(v)).value) == QuantityUpdated(items, id, v)
  {
    var w := InputRequest(Some(v)).value;
    assert Clamp(w) == Clamp(v);
    assert WithQuantity(items, id, w) == WithQuantity(items, id, v);
  }

  // ---------------------------------------------------------------------------
  // The form

  /** The `name` attributes of the form's inputs. */
  datatype Field = Name | Email | Phone | Message

  datatype Form = Form(name: string, email: string, phone: string, message: string)

  /** initialFormState. */
  const EmptyForm := Form("", "", "", "")

  function Get(f: Form, k: Field): string
  {
    match k
    case Name => f.name
    case Email => f.email
    case Phone => f.phone
    case Message => f.message
  }

  /** `{ ...prev, [name]: value }`. */
  function Set(f: Form, k: Field, v: string): (r: Form)
    ensures Get(r, k) == v
    ensures forall g :: g != k ==> Get(r, g) == Get(f, g)
  {
    match k
    case Name => f.(name := v)
    case Email => f.(email := v)
    case Phone => f.(phone := v)
    case Message => f.(message := v)
  }

  // ---------------------------------------------------------------------------
  // The email pattern

  /** `[^\s@]`. */
  predicate Plain(c: char) { !IsSpace(c) && c != '@' }

  /** Every character is plain, checked from the left. */
  predicate AllPlain(s: string)
  {
    s == [] || (Plain(s[0]) && AllPlain(s[1..]))
  }

  ghost predicate EveryPlain(s: string)
  {
    forall k :: 0 <= k < |s| ==> Plain(s[k])
  }

  lemma {:induction false} AllPlainIff(s: string)
    ensures AllPlain(s) <==> EveryPlain(s)
  {
    if s != [] {
      AllPlainIff(s[1..]);
      if EveryPlain(s) {
        assert Plain(s[0]);
        forall k | 0 <= k < |s[1..]| ensures Plain(s[1..][k]) {
          assert s[1..][k] == s[k + 1];
        }
      }
      if AllPlain(s) {
        forall k | 0 <= k < |s| ensures Plain(s[k]) {
          if k > 0 {
            assert s[k] == s[1..][k - 1];
          }
        }
      }
    }
  }

  /** Some character is a '.', checked from the left. */
  predicate HasDot(s: string)
  {
    s != [] && (s[0] == '.' || HasDot(s[1..]))
  }

  lemma {:induction false} HasDotIff(s: string)
    ensures HasDot(s) <==> exists k :: 0 <= k < |s| && s[k] == '.'
  {
    if s != [] {
      HasDotIff(s[1..]);
      if HasDot(s[1..]) {
        var k :| 0 <= k < |s[1..]| && s[1..][k] == '.';
        assert s[k + 1] == '.';
      }
      if s[0] != '.' && exists k :: 0 <= k < |s| && s[k] == '.' {
        var k :| 0 <= k < |s| && s[k] == '.';
        assert s[1..][k - 1] == '.';
      }
    }
  }

  /** A '.' with at least one character on each side. */
  predicate DotInside(d: string)
  {
    |d| >= 3 && HasDot(d[1..|d| - 1])
  }

  lemma DotInsideIff(d: string)
    ensures DotInside(d) <==> exists k :: 0 < k < |d| - 1 && d[k] == '.'
  {
    if |d| >= 3 {
      var mid := d[1..|d| - 1];
      HasDotIff(mid);
      if HasDot(mid) {
        var k :| 0 <= k < |mid| && mid[k] == '.';
        assert d[k + 1] == '.';
      }
      if exists k :: 0 < k < |d| - 1 && d[k] == '.' {
        var k :| 0 < k < |d| - 1 && d[k] == '.';
        assert mid[k - 1] == '.';
      }
    }
  }

  /** `s.indexOf(c)`, with |s| standing for "not found". */
  function IndexOf(s: string, c: char): (i: nat)
    ensures i <= |s|
  {
    if s == [] || s[0] == c then 0 else 1 + IndexOf(s[1..], c)
  }

  lemma {:induction false} IndexOfIsFirst(s: string, c: char)
    ensures IndexOf(s, c) < |s| ==> s[IndexOf(s, c)] == c
    ensures forall k :: 0 <= k < IndexOf(s, c) ==> s[k] != c
  {
    if s != [] && s[0] != c {
      IndexOfIsFirst(s[1..], c);
      forall k | 0 <= k < IndexOf(s, c) ensures s[k] != c {
        if k > 0 {
          assert s[k] == s[1..][k - 1];
        }
      }
    }
  }

  lemma {:induction false} IndexOfAt(s: string, c: char, i: nat)
    requires i < |s| && s[i] == c
    requires forall k :: 0 <= k < i ==> s[k] != c
    ensures IndexOf(s, c) == i
  {
    if i > 0 {
      assert s[0] != c;
      forall k | 0 <= k < i - 1 ensures s[1..][k] != c {
        assert s[1..][k] == s[k + 1];
      }
      IndexOfAt(s[1..], c, i - 1);
    }
  }

  /**
   * `/^[^\s@]+@[^\s@]+\.[^\s@]+$/.test(s)` read off the pattern: three non-empty
   * runs of plain characters, with the '@' at i and the '.' at j between them.
   */
  ghost predicate EmailPattern(s: string)
  {
    exists i, j :: 0 < i && i + 1 < j && j + 1 < |s| && s[i] == '@' && s[j] == '.' &&
      EveryPlain(s[..i]) && EveryPlain(s[i + 1..j]) && EveryPlain(s[j + 1..])
  }

  /**
   * The email test, scanning the text: a non-empty plain local part up to the
   * first '@', and after it a plain domain with a dot inside.
   */
  predicate EmailValid(s: string)
  {
    var i := IndexOf(s, '@');
    0 < i < |s| && AllPlain(s[..i]) && AllPlain(s[i + 1..]) && DotInside(s[i + 1..])
  }

  lemma EmailPatternIsValid(s: string, i: nat, j: nat)
    requires 0 < i && i + 1 < j && j + 1 < |s| && s[i] == '@' && s[j] == '.'
    requires EveryPlain(s[..i]) && EveryPlain(s[i + 1..j]) && EveryPlain(s[j + 1..])
    ensures EmailValid(s)
  {
    var local, d := s[..i], s[i + 1..];
    forall k | 0 <= k < i ensures s[k] != '@' {
      assert s[k] == local[k];
    }
    IndexOfAt(s, '@', i);
    forall k | 0 <= k < |d| ensures Plain(d[k]) {
      if k < j - i - 1 {
        assert d[k] == s[i + 1..j][k];
      } else if k > j - i - 1 {
        assert d[k] == s[j + 1..][k - (j - i)];
      }
    }
    AllPlainIff(local);
    AllPlainIff(d);
    assert d[j - i - 1] == '.';
    DotInsideIff(d);
  }

  lemma EmailValidIsPattern(s: string)
    requires EmailValid(s)
    ensures EmailPattern(s)
  {
    var i := IndexOf(s, '@');
    IndexOfIsFirst(s, '@');
    var d := s[i + 1..];
    AllPlainIff(s[..i]);
    AllPlainIff(d);
    DotInsideIff(d);
    var k :| 0 < k < |d| - 1 && d[k] == '.';
    var j := i + 1 + k;
    assert s[j] == '.';
    var host, top := s[i + 1..j], s[j + 1..];
    forall m | 0 <= m < |host| ensures Plain(host[m]) {
      assert host[m] == d[m];
    }
    forall m | 0 <= m < |top| ensures Plain(top[m]) {
      assert top[m] == d[k + 1 + m];
    }
    EmailPatternAt(s, i, j);
  }

  lemma EmailPatternAt(s: string, i: nat, j: nat)
    requires 0 < i && i + 1 < j && j + 1 < |s| && s[i] == '@' && s[j] == '.'
    requires EveryPlain(s[..i]) && EveryPlain(s[i + 1..j]) && EveryPlain(s[j + 1..])
    ensures EmailPattern(s)
  {
  }

  /** The email test accepts exactly the strings the pattern matches. */
  lemma EmailPatternIff(s: string)
    ensures EmailPattern(s) <==> EmailValid(s)
  {
    if EmailPattern(s) {
      var i, j :| 0 < i && i + 1 < j && j + 1 < |s| && s[i] == '@' && s[j] == '.' &&
        EveryPlain(s[..i]) && EveryPlain(s[i + 1..j]) && EveryPlain(s[j + 1..]);
      EmailPatternIsValid(s, i, j);
    }
    if EmailValid(s) {
      EmailValidIsPattern(s);
    }
  }

  /** An accepted email has no white space and exactly one '@'. */
  lemma EmailValidShape(s: string)
    requires EmailValid(s)
    ensures forall k :: 0 <= k < |s| ==> !IsSpace(s[k])
    ensures exists i :: 0 <= i < |s| && s[i] == '@'
    ensures forall a, b :: 0 <= a < |s| && 0 <= b < |s| && s[a] == '@' && s[b] == '@' ==> a == b
  {
    var i := IndexOf(s, '@');
    IndexOfIsFirst(s, '@');
    AllPlainIff(s[..i]);
    AllPlainIff(s[i + 1..]);
    forall k | 0 <= k < |s| && k != i ensures Plain(s[k]) {
      if k < i {
        assert s[k] == s[..i][k];
      } else {
        assert s[k] == s[i + 1..][k - i - 1];
      }
    }
  }

  // ---------------------------------------------------------------------------
  // The phone pattern

  /** `[\d .-]`. */
  predicate PhoneChar(c: char) { IsDigit(c) || c == ' ' || c == '.' || c == '-' }

  /**
   * `/^\+?\d[\d .-]{7,}$/.test(s)` read off the pattern; p is the length of the
   * optional '+' in front.
   */
  ghost predicate PhonePattern(s: string)
  {
    exists p :: 0 <= p <= 1 && p + 8 <= |s| && (p == 1 ==> s[0] == '+') && IsDigit(s[p]) &&
      forall k :: p < k < |s| ==> PhoneChar(s[k])
  }

  /** The string without a leading '+'. */
  function Unsigned(s: string): string
  {
    if s != [] && s[0] == '+' then s[1..] else s
  }

  /** The phone test: after an optional '+', a digit and then at least seven digits, spaces, dots or dashes. */
  predicate PhoneValid(s: string)
  {
    var t := Unsigned(s);
    |t| >= 8 && IsDigit(t[0]) && forall k :: 1 <= k < |t| ==> PhoneChar(t[k])
  }

  /** The phone test accepts exactly the strings the pattern matches. */
  lemma PhonePatternIff(s: string)
    ensures PhonePattern(s) <==> PhoneValid(s)
  {
    var t := Unsigned(s);
    var p := if s != [] && s[0] == '+' then 1 else 0;
    assert t == s[p..];
    if PhoneValid(s) {
      assert s[p] == t[0];
      forall k | p < k < |s| ensures PhoneChar(s[k]) {
        assert s[k] == t[k - p];
      }
    }
    if PhonePattern(s) {
      var q :| 0 <= q <= 1 && q + 8 <= |s| && (q == 1 ==> s[0] == '+') && IsDigit(s[q]) &&
        forall k :: q < k < |s| ==> PhoneChar(s[k]);
      assert q == p;
      forall k | 1 <= k < |t| ensures PhoneChar(t[k]) {
        assert t[k] == s[k + p];
      }
    }
  }

  /** An accepted phone number has at least 8 characters, and a '+' only in front. */
  lemma PhoneValidShape(s: string)
    requires PhoneValid(s)
    ensures |s| >= 8
    ensures s[0] == '+' || IsDigit(s[0])
    ensures forall k :: 0 < k < |s| ==> PhoneChar(s[k]) && s[k] != '+'
  {
    PhonePatternIff(s);
    var p :| 0 <= p <= 1 && p + 8 <= |s| && (p == 1 ==> s[0] == '+') && IsDigit(s[p]) &&
      forall k :: p < k < |s| ==> PhoneChar(s[k]);
  }

  // ---------------------------------------------------------------------------
  // validateForm

  const NameRequired := "El nombre es obligatorio."
  const EmailRequired := "El correo electrónico es obligatorio."
  const EmailInvalid := "Ingresa un correo electrónico válido."
  const PhoneInvalid := "Ingresa un teléfono válido (incluye código de país)."

  /** validateForm: the errors, field by field; the message field is never checked. */
  function Validated(f: Form): (e: map<Field, string>)
    ensures Name in e <==> Blank(f.name)
    ensures Email in e <==> Blank(f.email) || !EmailValid(Trim(f.email))
    ensures Phone in e <==> !Blank(f.phone) && !PhoneValid(Trim(f.phone))
    ensures Message !in e
    ensures Name in e ==> e[Name] == NameRequired
    ensures Email in e ==> e[Email] == if Blank(f.email) then EmailRequired else EmailInvalid
    ensures Phone in e ==> e[Phone] == PhoneInvalid
  {
    var none: map<Field, string> := map[];
    var afterName := if Blank(f.name) then none[Name := NameRequired] else none;
    var afterEmail :=
      if Blank(f.email) then afterName[Email := EmailRequired]
      else if !EmailValid(Trim(f.email)) then afterName[Email := EmailInvalid]
      else afterName;
    if !Blank(f.phone) && !PhoneValid(Trim(f.phone)) then afterEmail[Phone := PhoneInvalid] else afterEmail
  }

  /** Every message the validator gives is non-empty. */
  lemma ValidatedMessages(f: Form)
    ensures forall k :: k in Validated(f) ==> Validated(f)[k] != ""
  {
    var e := Validated(f);
    forall k | k in e ensures e[k] != "" {
      if k == Name {
        assert e[k] == NameRequired;
        assert |NameRequired| > 0;
      } else if k == Email {
        assert |EmailRequired| > 0 && |EmailInvalid| > 0;
      } else if k == Phone {
        assert e[k] == PhoneInvalid;
        assert |PhoneInvalid| > 0;
      } else {
        assert false;
      }
    }
  }

  /**
   * The form passes exactly when the name is not blank, the trimmed email
   * matches its pattern, and the phone is blank or its trimmed text matches.
   */
  ghost predicate Acceptable(f: Form)
  {
    !Blank(f.name) && EmailPattern(Trim(f.email)) && (Blank(f.phone) || PhonePattern(Trim(f.phone)))
  }

  lemma ValidatedEmptyIff(f: Form)
    ensures Validated(f) == map[] <==> Acceptable(f)
  {
    EmailPatternIff(Trim(f.email));
    PhonePatternIff(Trim(f.phone));
    var e := Validated(f);
    if Acceptable(f) {
      assert !Blank(f.email);
      assert forall k :: k !in e;
    }
  }

  /** A blank email is refused with the "required" message whatever else the form holds. */
  lemma BlankEmailRequired(f: Form)
    requires AllSpace(f.email)
    ensures Email in Validated(f) && Validated(f)[Email] == EmailRequired
  {
    BlankIffAllSpace(f.email);
  }

  /** A phone of white space only is never an error. */
  lemma BlankPhoneAccepted(f: Form)
    requires AllSpace(f.phone)
    ensures Phone !in Validated(f)
  {
    BlankIffAllSpace(f.phone);
  }

  // ---------------------------------------------------------------------------
  // Status and editing

  /** The `type` of the status banner: 'success' | 'error'. */
  datatype StatusKind = Success | Failure

  datatype Status = Status(kind: StatusKind, message: string)

  const EmptyCartMessage := "Agrega productos al carrito antes de enviar."
  const ReviewFieldsMessage := "Revisa los campos requeridos antes de enviar."
  const SentMessage := "¡Solicitud enviada! Te contactaremos pronto."

  /** The errors updater of handleInputChange: a present, non-empty message for the field is deleted. */
  function ErrorCleared(errors: map<Field, string>, k: Field): (r: map<Field, string>)
    ensures k in r <==> k in errors && errors[k] == ""
    ensures forall g :: g != k ==> (g in r <==> g in errors)
    ensures forall g :: g in r ==> g in errors && r[g] == errors[g]
  {
    if k in errors && errors[k] != "" then errors - {k} else errors
  }

  /** The status updater of handleInputChange: an error banner goes away, a success banner stays. */
  function StatusAfterEdit(s: Option<Status>): (r: Option<Status>)
    ensures r.None? <==> s.None? || s.value.kind == Failure
    ensures r.Some? ==> r == s
  {
    if s.Some? && s.value.kind == Failure then None else s
  }

  // ---------------------------------------------------------------------------
  // The page state

  class QuotePage {
    /** The cart the page reads and updates through `useCart`. */
    const cart: CartStore
    var form: Form
    var submitted: bool
    var errors: map<Field, string>
    var status: Option<Status>

    /** Every error message and the banner's message are non-empty, and the message field has no error. */
    ghost predicate WellFormed()
      reads this
    {
      (forall k :: k in errors ==> errors[k] != "") && Message !in errors &&
      (status.Some? ==> status.value.message != "")
    }

    constructor (cart: CartStore)
      ensures this.cart == cart
      ensures form == EmptyForm && !submitted && errors == map[] && status == None
      ensures WellFormed()
    {
      this.cart := cart;
      form := EmptyForm;
      submitted := false;
      errors := map[];
      status := None;
    }

    /** The - and + buttons next to an item (delta -1 and 1). */
    method HandleQuantityButton(id: string, delta: int)
      modifies cart
      ensures cart.items == Pressed(old(cart.items), id, delta)
      ensures cart.Saved() && (!cart.hasWindow ==> cart.persisted == old(cart.persisted))
      ensures Cart.Valid(old(cart.items)) ==> Cart.Valid(cart.items)
      ensures Cart.QuantitiesPositive(cart.items)
    {
      var next := ButtonRequest(cart.items, id, delta);
      cart.UpdateQuantity(id, next as real);
    }

    /** The quantity input; `value` is `Number(event.target.value)`, with None for NaN. */
    method HandleQuantityInput(id: string, value: Option<real>)
      modifies cart
      ensures value.None? ==> cart.items == old(cart.items) && cart.persisted == old(cart.persisted)
      ensures value.Some? ==> cart.items == QuantityUpdated(old(cart.items), id, InputRequest(value).value)
      ensures value.Some? ==> cart.Saved() && (!cart.hasWindow ==> cart.persisted == old(cart.persisted))
      ensures value.Some? ==> Cart.QuantitiesPositive(cart.items)
      ensures old(cart.Saved()) ==> cart.Saved()
      ensures Cart.Valid(old(cart.items)) ==> Cart.Valid(cart.items)
    {
      match InputRequest(value)
      case None =>
      case Some(q) =>
        cart.UpdateQuantity(id, q);
    }

    /** handleInputChange: store the value, drop that field's error, clear an error banner. */
    method HandleInputChange(k: Field, v: string)
      modifies this
      ensures form == Set(old(form), k, v)
      ensures errors == ErrorCleared(old(errors), k)
      ensures status == StatusAfterEdit(old(status))
      ensures submitted == old(submitted)
      ensures old(WellFormed()) ==> WellFormed() && k !in errors
    {
      form := Set(form, k, v);
      errors := ErrorCleared(errors, k);
      status := StatusAfterEdit(status);
    }

    /** handleSubmit. */
    method HandleSubmit()
      modifies this, cart
      ensures old(|cart.items|) == 0 ==>
        status == Some(Status(Failure, EmptyCartMessage)) &&
        errors == old(errors) && form == old(form) && submitted == old(submitted) &&
        cart.items == old(cart.items) && cart.persisted == old(cart.persisted)
      ensures old(|cart.items|) > 0 && Validated(old(form)) != map[] ==>
        status == Some(Status(Failure, ReviewFieldsMessage)) &&
        errors == Validated(old(form)) && form == old(form) && submitted == old(submitted) &&
        cart.items == old(cart.items) && cart.persisted == old(cart.persisted)
      ensures old(|cart.items|) > 0 && Validated(old(form)) == map[] ==>
        status == Some(Status(Success, SentMessage)) &&
        errors == map[] && form == EmptyForm && submitted &&
        cart.items == [] && cart.Saved() && (!cart.hasWindow ==> cart.persisted == old(cart.persisted))
      ensures old(cart.Saved()) ==> cart.Saved()
      ensures old(WellFormed()) ==> WellFormed()
    {
      if |cart.items| == 0 {
        status := Some(Status(Failure, EmptyCartMessage));
        return;
      }
      var validation := Validated(form);
      ValidatedMessages(form);
      if validation != map[] {
        errors := validation;
        status := Some(Status(Failure, ReviewFieldsMessage));
        return;
      }
      errors := map[];
      status := Some(Status(Success, SentMessage));
      submitted := true;
      cart.ClearCart();
      form := EmptyForm;
    }
  }
}
