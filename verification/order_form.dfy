/** The order form and its validation (src/pages/Index.tsx:38-51, 62-76,
    235-253): the form's values, the error messages shown beside its fields,
    and the rules that produce them. */
module OrderForms {
  import opened Text
  import opened Phone
  import opened Email

  /** The values of the order form. `paymentMethod` is one of `cash`, `card`,
      `online` and `deliveryTime` one of `asap`, `scheduled` in the page's
      types; the change handler stores whatever string it is given. */
  datatype OrderForm = OrderForm(
    name: string,
    phone: string,
    email: string,
    address: string,
    apartment: string,
    entrance: string,
    floor: string,
    intercom: string,
    comment: string,
    paymentMethod: string,
    deliveryTime: string,
    scheduledTime: string)

  /** The keys of the form. */
  datatype Field =
    | Name | PhoneField | EmailField | Address | Apartment | Entrance | Floor
    | Intercom | Comment | PaymentMethod | DeliveryTime | ScheduledTime

  /** The form as the page first shows it: every field empty except the payment
      method (`cash`) and the delivery time (`asap`). */
  const EmptyForm := OrderForm("", "", "", "", "", "", "", "", "", "cash", "asap", "")

  /** The value of one field. */
  function Get(form: OrderForm, f: Field): string
  {
    match f
    case Name => form.name
    case PhoneField => form.phone
    case EmailField => form.email
    case Address => form.address
    case Apartment => form.apartment
    case Entrance => form.entrance
    case Floor => form.floor
    case Intercom => form.intercom
    case Comment => form.comment
    case PaymentMethod => form.paymentMethod
    case DeliveryTime => form.deliveryTime
    case ScheduledTime => form.scheduledTime
  }

  /** `{ ...form, [f]: value }`: the form with one field replaced. */
  function Set(form: OrderForm, f: Field, value: string): (r: OrderForm)
    ensures Get(r, f) == value
    ensures forall g :: g != f ==> Get(r, g) == Get(form, g)
  {
    match f
    case Name => form.(name := value)
    case PhoneField => form.(phone := value)
    case EmailField => form.(email := value)
    case Address => form.(address := value)
    case Apartment => form.(apartment := value)
    case Entrance => form.(entrance := value)
    case Floor => form.(floor := value)
    case Intercom => form.(intercom := value)
    case Comment => form.(comment := value)
    case PaymentMethod => form.(paymentMethod := value)
    case DeliveryTime => form.(deliveryTime := value)
    case ScheduledTime => form.(scheduledTime := value)
  }

  /** The messages the validation can show. */
  datatype Message = NameRequired | PhoneRequired | AddressRequired | PhoneInvalid | EmailInvalid

  /** The text shown for each message; none is empty, so a field with a message
      counts as having an error wherever the page tests `errors[field]`. */
  function Wording(m: Message): (t: string)
    ensures t != ""
  {
    match m
    case NameRequired => "Имя обязательно"
    case PhoneRequired => "Телефон обязателен"
    case AddressRequired => "Адрес обязателен"
    case PhoneInvalid => "Некорректный формат телефона"
    case EmailInvalid => "Некорректный email"
  }

  datatype Option<T> = None | Some(value: T)

  /** The fields the validation looks at. */
  const CheckedFields: set<Field> := {Name, PhoneField, EmailField, Address}

  /** The message for the name: required when blank. */
  function NameMessage(form: OrderForm): Option<Message>
  {
    if Blank(form.name) then Some(NameRequired) else None
  }

  /** The message for the phone: malformed when not empty and failing the
      pattern (even when also blank: that check comes later and overwrites),
      otherwise required when blank. */
  function PhoneMessage(form: OrderForm): Option<Message>
  {
    if form.phone != "" && !IsPhone(form.phone) then Some(PhoneInvalid)
    else if Blank(form.phone) then Some(PhoneRequired)
    else None
  }

  /** The message for the address: required when blank. */
  function AddressMessage(form: OrderForm): Option<Message>
  {
    if Blank(form.address) then Some(AddressRequired) else None
  }

  /** The message for the e-mail: malformed when not empty and failing the check. */
  function EmailMessage(form: OrderForm): Option<Message>
  {
    if form.email != "" && !IsEmail(form.email) then Some(EmailInvalid) else None
  }

  /** The message of a field, if any; only the checked fields can have one. */
  function MessageFor(form: OrderForm, f: Field): Option<Message>
  {
    match f
    case Name => NameMessage(form)
    case PhoneField => PhoneMessage(form)
    case Address => AddressMessage(form)
    case EmailField => EmailMessage(form)
    case _ => None
  }

  /** `m` with the message `o` on field `f`, if there is one. */
  function Put(m: map<Field, Message>, f: Field, o: Option<Message>): map<Field, Message>
  {
    if o.Some? then m[f := o.value] else m
  }

  /** The errors the validation reports: every field that has a message. */
  function FormErrors(form: OrderForm): (errors: map<Field, Message>)
    ensures errors.Keys <= CheckedFields
    ensures forall f :: f in errors <==> MessageFor(form, f).Some?
    ensures forall f :: f in errors ==> MessageFor(form, f) == Some(errors[f])
  {
    Put(Put(Put(Put(map[], Name, NameMessage(form)), PhoneField, PhoneMessage(form)),
      Address, AddressMessage(form)), EmailField, EmailMessage(form))
  }

  /** The body of `validateForm`: the errors are built one check at a time, in
      the page's order, starting from none. */
  method ComputeErrors(form: OrderForm) returns (newErrors: map<Field, Message>)
    ensures newErrors == FormErrors(form)
  {
    newErrors := map[];
    if Blank(form.name) {
      newErrors := newErrors[Name := NameRequired];
    }
    if Blank(form.phone) {
      newErrors := newErrors[PhoneField := PhoneRequired];
    }
    if Blank(form.address) {
      newErrors := newErrors[Address := AddressRequired];
    }
    if form.phone != "" && !IsPhone(form.phone) {
      newErrors := newErrors[PhoneField := PhoneInvalid];
    }
    if form.email != "" && !IsEmail(form.email) {
      newErrors := newErrors[EmailField := EmailInvalid];
    }
  }

  /** When each field gets an error, and which message. */
  lemma FieldErrors(form: OrderForm)
    ensures Name in FormErrors(form) <==> Blank(form.name)
    ensures Address in FormErrors(form) <==> Blank(form.address)
    ensures PhoneField in FormErrors(form) <==> !IsPhone(form.phone)
    ensures PhoneField in FormErrors(form) ==>
      FormErrors(form)[PhoneField] == if form.phone == "" then PhoneRequired else PhoneInvalid
    ensures EmailField in FormErrors(form) <==> form.email != "" && !IsEmail(form.email)
  {
    if IsPhone(form.phone) {
      PhoneHasDigit(form.phone);
    }
    if form.phone == "" {
      assert !IsPhone(form.phone) by {
        if IsPhone(form.phone) { PhoneLength(form.phone); }
      }
    }
  }

  /** `validateForm` succeeds exactly when the name and the address are not
      blank, the phone passes the pattern and the e-mail is empty or passes its
      check. */
  lemma NoErrorsIff(form: OrderForm)
    ensures FormErrors(form) == map[] <==>
      !Blank(form.name) && !Blank(form.address) && IsPhone(form.phone) &&
      (form.email == "" || IsEmail(form.email))
  {
    FieldErrors(form);
    if FormErrors(form) != map[] {
      var f :| f in FormErrors(form);
    }
  }

  /** Submitting the untouched form reports exactly the name, the phone and the
      address as required. */
  lemma EmptyFormErrors()
    ensures FormErrors(EmptyForm) == map[Name := NameRequired, PhoneField := PhoneRequired, Address := AddressRequired]
  {
    assert Blank("");
    assert !IsPhone("") by {
      if IsPhone("") { PhoneLength(""); }
    }
    var e := FormErrors(EmptyForm);
    assert MessageFor(EmptyForm, EmailField) == None;
    assert e.Keys == {Name, PhoneField, Address};
  }

  /** A phone of white space only is not empty, so the format message replaces
      the "required" one. */
  lemma SpacePhoneGetsFormatMessage(form: OrderForm)
    requires form.phone != "" && Blank(form.phone)
    ensures FormErrors(form)[PhoneField] == PhoneInvalid
  {
    FieldErrors(form);
    if IsPhone(form.phone) {
      PhoneHasDigit(form.phone);
    }
  }

  /** `123` is reported as malformed; the placeholder number is accepted. */
  lemma PhoneExamples(form: OrderForm)
    ensures form.phone == "123" ==> PhoneField in FormErrors(form) && FormErrors(form)[PhoneField] == PhoneInvalid
    ensures form.phone == "+7 (999) 123-45-67" ==> PhoneField !in FormErrors(form)
  {
    ShortNumberRejected();
    PlaceholderIsPhone();
    FieldErrors(form);
  }
}
