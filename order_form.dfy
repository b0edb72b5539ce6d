/** The order form: the checks the schema makes on the full name, the
    phones, the order code and the QR picture, the rule that either the
    marketplace phone and code or a QR picture is given, the capitalisation
    of the name and the payload sent on submit, the `data:` URL of the QR
    code returned by the server, and the submit handler's effect on the form. */
module OrderForm {
  import opened Common
  import opened Text
  import opened Split
  import opened Base64
  import opened Formik
  import opened Toasts
  import PersistForm
  import FileInput

  type File = FileInput.File

  /** The largest accepted picture, in bytes. */
  const MaxFileSize: nat := 5_000_000
  /** The accepted picture types. */
  const AcceptedImageTypes: seq<string> := ["image/jpg", "image/jpeg", "image/png", "image/webp"]

  const NameRequired: string := "ФИО обязательно к заполнению!"
  const NameIncomplete: string := "Необходимо заполнить Имя, Фамилию и Отчество"
  const PhoneRequired: string := "Телефон обязателен к заполнению!"
  const PhoneIncomplete: string := "Проверьте пожалуйста еще раз! Телефон не заполнен до конца!"
  const CodeIncomplete: string := "Код не заполнен!"
  const FileTooLarge: string := "Максимальный размер файла не должен превышать 5 мегабайт."
  const FileTypeRejected: string := ".jpg, .jpeg, .png, .webp расширения файла необходимо прикреплять!"
  const DeliveryMissing: string :=
    "Заполните либо (Телефон Wb и Код для получения заказа), либо прикрепите QR-код, либо все вместе"

  /** The `QR` field: `undefined`, `null`, or a list of files. */
  datatype QrValue = QrAbsent | QrNull | QrFiles(files: seq<File>)

  /** The form's values as Formik holds them. */
  datatype OrderValues = OrderValues(flp: string, phone: string, wbPhone: string, orderCode: string, qr: QrValue)

  datatype Field = FLP | Phone | WbPhone | OrderCode | QR

  /** A schema issue: the field it is reported on and its message. */
  datatype Issue = Issue(path: Field, message: string)

  // ---------------------------------------------------------------------
  // The full name

  /** A character `[a-zа-я]` matches under the `i` flag: Basic Latin letters
      and the Cyrillic letters А..я (U+0410..U+044F); `ё` and `Ё` are not among them. */
  predicate IsNameLetter(c: char) {
    ('a' <= c <= 'z') || ('A' <= c <= 'Z') || ('\U{0410}' <= c <= '\U{044F}')
  }

  /** `/^[a-zа-я]+$/i.test(part)`. */
  predicate IsNamePart(w: string) {
    w != [] && forall i :: 0 <= i < |w| ==> IsNameLetter(w[i])
  }

  /** The `FLP` refinement: the trimmed text splits at whitespace into exactly
      three parts, each made of name letters. */
  predicate IsFullName(s: string) {
    var parts := SplitWs(Trim(s));
    |parts| == 3 && forall i :: 0 <= i < |parts| ==> IsNamePart(parts[i])
  }

  /** A name is valid exactly when it has three words, all made of name letters. */
  lemma FullNameIffWords(s: string)
    ensures IsFullName(s) <==> |Words(s)| == 3 && forall i :: 0 <= i < 3 ==> IsNamePart(Words(s)[i])
  {
    SplitTrimIsWords(s);
  }

  /** `ё` and `Ё` are outside the ranges, so a word holding one makes the name invalid. */
  lemma YoRejected(s: string, k: nat, j: nat)
    requires k < |Words(s)| && j < |Words(s)[k]|
    requires Words(s)[k][j] == 'ё' || Words(s)[k][j] == 'Ё'
    ensures !IsFullName(s)
  {
    FullNameIffWords(s);
  }

  // ---------------------------------------------------------------------
  // Capitalisation

  /** `capitalizeFirstLetter`: the first character upper-cased and the rest lower-cased. */
  function Capitalize(w: string): (r: string)
    ensures |r| == |w|
  {
    if w == [] then [] else [UpperChar(w[0])] + Lower(w[1..])
  }

  /** `parts.map(capitalizeFirstLetter)`. */
  function Caps(ws: seq<string>): (r: seq<string>)
    ensures |r| == |ws|
    ensures forall i :: 0 <= i < |ws| ==> r[i] == Capitalize(ws[i])
  {
    if ws == [] then [] else [Capitalize(ws[0])] + Caps(ws[1..])
  }

  /** The name as submitted: every piece of `split(/\s+/)` capitalised, joined
      with single spaces, and trimmed. */
  function FormatName(s: string): string {
    Trim(Join(Caps(SplitWs(s)), " "))
  }

  /** Capitalising keeps whitespace where it was, and name letters name letters. */
  lemma CapitalizeChars(w: string)
    ensures forall i :: 0 <= i < |w| ==> (IsSpace(Capitalize(w)[i]) <==> IsSpace(w[i]))
    ensures forall i :: 0 <= i < |w| ==> IsNameLetter(w[i]) ==> IsNameLetter(Capitalize(w)[i])
  {
    var c := Capitalize(w);
    forall i | 0 <= i < |w|
      ensures IsSpace(c[i]) <==> IsSpace(w[i])
      ensures IsNameLetter(w[i]) ==> IsNameLetter(c[i])
    {
      assert c[i] == if i == 0 then UpperChar(w[i]) else LowerChar(w[i]);
      NameLetterCases(w[i]);
    }
  }

  /** Upper- and lower-casing a name letter gives a name letter. */
  lemma NameLetterCases(c: char)
    ensures IsNameLetter(c) ==> IsNameLetter(UpperChar(c)) && IsNameLetter(LowerChar(c))
  {
  }

  lemma CapitalizeIdempotent(w: string)
    ensures Capitalize(Capitalize(w)) == Capitalize(w)
  {
    if w != [] {
      var c := Capitalize(w);
      assert c[0] == UpperChar(w[0]) && c[1..] == Lower(w[1..]);
      CaseMapsIdempotent(w[0]);
      LowerIdempotent(w[1..]);
    }
  }

  lemma CapsIdempotent(ws: seq<string>)
    ensures Caps(Caps(ws)) == Caps(ws)
  {
    forall i | 0 <= i < |ws|
      ensures Caps(Caps(ws))[i] == Caps(ws)[i]
    {
      CapitalizeIdempotent(ws[i]);
    }
  }

  /** Capitalising words gives words, and name parts name parts. */
  lemma CapsWords(ws: seq<string>)
    requires forall i :: 0 <= i < |ws| ==> IsWord(ws[i])
    ensures forall i :: 0 <= i < |ws| ==> IsWord(Caps(ws)[i])
    ensures (forall i :: 0 <= i < |ws| ==> IsNamePart(ws[i])) ==>
      forall i :: 0 <= i < |ws| ==> IsNamePart(Caps(ws)[i])
  {
    forall i | 0 <= i < |ws|
      ensures IsWord(Caps(ws)[i])
      ensures IsNamePart(ws[i]) ==> IsNamePart(Caps(ws)[i])
    {
      CapitalizeChars(ws[i]);
    }
  }

  /** Capitalising the pieces of a split keeps them the pieces of a split. */
  lemma CapsPieces(ps: seq<string>)
    requires Pieces(ps)
    ensures Pieces(Caps(ps))
  {
    forall k | 0 <= k < |ps|
      ensures NoSpace(Caps(ps)[k])
    {
      CapitalizeChars(ps[k]);
    }
  }

  /** Capitalising and dropping empty pieces commute. */
  lemma {:induction false} FilterCaps(ps: seq<string>)
    ensures Filter(Caps(ps), NonEmpty) == Caps(Filter(ps, NonEmpty))
  {
    if ps != [] {
      FilterCaps(ps[1..]);
      var c := Caps(ps);
      assert c[1..] == Caps(ps[1..]);
      assert c == [c[0]] + c[1..];
      if ps[0] == [] {
        assert Filter(ps, NonEmpty) == Filter(ps[1..], NonEmpty);
      } else {
        var f := Filter(ps[1..], NonEmpty);
        assert Filter(ps, NonEmpty) == [ps[0]] + f;
        assert ([ps[0]] + f)[1..] == f;
      }
    }
  }

  /** The submitted name is the capitalised words of the text, joined by single spaces. */
  lemma FormatNameIsWords(s: string)
    ensures FormatName(s) == Join(Caps(Words(s)), " ")
  {
    var ps := SplitWs(s);
    SplitIsPieces(s);
    CapsPieces(ps);
    TrimJoinPieces(Caps(ps));
    FilterCaps(ps);
  }

  /** The words of the submitted name are the capitalised words of the text. */
  lemma FormatNameWords(s: string)
    ensures Words(FormatName(s)) == Caps(Words(s))
  {
    FormatNameIsWords(s);
    WordsAreWords(s);
    CapsWords(Words(s));
    WordsOfJoin(Caps(Words(s)));
  }

  /** Formatting a formatted name changes nothing. */
  lemma FormatNameIdempotent(s: string)
    ensures FormatName(FormatName(s)) == FormatName(s)
  {
    FormatNameIsWords(FormatName(s));
    FormatNameWords(s);
    CapsIdempotent(Words(s));
    FormatNameIsWords(s);
  }

  /** A valid name stays valid once formatted. */
  lemma FormatKeepsFullName(s: string)
    requires IsFullName(s)
    ensures IsFullName(FormatName(s))
  {
    FullNameIffWords(s);
    FormatNameWords(s);
    WordsAreWords(s);
    CapsWords(Words(s));
    FullNameIffWords(FormatName(s));
  }

  // ---------------------------------------------------------------------
  // The schema

  /** Every file of a list passes a test (`files.every(...)`). */
  predicate SizesOk(files: seq<File>) {
    forall i :: 0 <= i < |files| ==> files[i].size <= MaxFileSize
  }

  predicate TypesOk(files: seq<File>) {
    forall i :: 0 <= i < |files| ==> files[i].mime in AcceptedImageTypes
  }

  /** The two `QR` refinements as written: `files === null || files?.every(...)`,
      which is falsy for `undefined`. */
  function QrIssuesAsWritten(qr: QrValue): seq<Issue> {
    (if qr.QrNull? || (qr.QrFiles? && SizesOk(qr.files)) then [] else [Issue(QR, FileTooLarge)])
    + (if qr.QrNull? || (qr.QrFiles? && TypesOk(qr.files)) then [] else [Issue(QR, FileTypeRejected)])
  }

  /** The two `QR` refinements with `undefined` accepted like `null`, as the
      field's `.optional()` declares. */
  function QrIssues(qr: QrValue): (r: seq<Issue>)
    ensures r == [] <==> !qr.QrFiles? || (SizesOk(qr.files) && TypesOk(qr.files))
    ensures forall i :: 0 <= i < |r| ==> r[i].path == QR
  {
    match qr
    case QrFiles(files) =>
      (if SizesOk(files) then [] else [Issue(QR, FileTooLarge)])
      + (if TypesOk(files) then [] else [Issue(QR, FileTypeRejected)])
    case _ => []
  }

  /** As written, a missing `QR` field fails both refinements. */
  lemma AbsentQrRejectedAsWritten()
    ensures QrIssuesAsWritten(QrAbsent) == [Issue(QR, FileTooLarge), Issue(QR, FileTypeRejected)]
    ensures QrIssues(QrAbsent) == []
  {
  }

  /** Apart from a missing field, the corrected refinements are the written ones. */
  lemma QrIssuesAgree(qr: QrValue)
    requires !qr.QrAbsent?
    ensures QrIssues(qr) == QrIssuesAsWritten(qr)
  {
  }

  /** The object-level rule: both marketplace phone and code, or a `QR` list. */
  predicate DeliveryGiven(wbPhone: Option<string>, orderCode: Option<string>, qr: QrValue) {
    (wbPhone.Some? && orderCode.Some?) || qr.QrFiles?
  }

  /** The issues the schema reports, given those of the `QR` refinements, in
      the order it checks: the fields in declaration order, then the object
      rule, which is skipped when a required field (the name or the phone) is
      missing. */
  function SchemaIssues(v: OrderValues, isPhone: string -> bool, qrIssues: seq<Issue>): seq<Issue> {
    var flp, phone := Prepared(v.flp), Prepared(v.phone);
    var wb, code := Prepared(v.wbPhone), Prepared(v.orderCode);
    var flpIssues :=
      if flp.None? then [Issue(FLP, NameRequired)]
      else if IsFullName(flp.value) then [] else [Issue(FLP, NameIncomplete)];
    var phoneIssues :=
      if phone.None? then [Issue(Phone, PhoneRequired)]
      else if isPhone(phone.value) then [] else [Issue(Phone, PhoneIncomplete)];
    var wbIssues := if wb.None? || isPhone(wb.value) then [] else [Issue(WbPhone, PhoneIncomplete)];
    var codeIssues := if code.None? || |code.value| == 5 then [] else [Issue(OrderCode, CodeIncomplete)];
    var fieldIssues := flpIssues + phoneIssues + wbIssues + codeIssues + qrIssues;
    if flp.None? || phone.None? then fieldIssues
    else fieldIssues + (if DeliveryGiven(wb, code, v.qr) then [] else [Issue(QR, DeliveryMissing)])
  }

  /** The schema as written. */
  function ValidateAsWritten(v: OrderValues, isPhone: string -> bool): seq<Issue> {
    SchemaIssues(v, isPhone, QrIssuesAsWritten(v.qr))
  }

  /** The schema with the corrected `QR` refinements, which the rest of the
      model uses. */
  function Validate(v: OrderValues, isPhone: string -> bool): seq<Issue> {
    SchemaIssues(v, isPhone, QrIssues(v.qr))
  }

  /** What a valid order is, field by field. */
  predicate ValidOrder(v: OrderValues, isPhone: string -> bool) {
    && v.flp != [] && IsFullName(v.flp)
    && v.phone != [] && isPhone(v.phone)
    && (v.wbPhone == [] || isPhone(v.wbPhone))
    && (v.orderCode == [] || |v.orderCode| == 5)
    && (v.qr.QrFiles? ==> SizesOk(v.qr.files) && TypesOk(v.qr.files))
    && ((v.wbPhone != [] && v.orderCode != []) || v.qr.QrFiles?)
  }

  /** The schema reports nothing exactly for a valid order. */
  lemma ValidateIff(v: OrderValues, isPhone: string -> bool)
    ensures Validate(v, isPhone) == [] <==> ValidOrder(v, isPhone)
  {
  }

  /** As written, the schema reports nothing exactly for a valid order whose
      `QR` field is present; the two schemas differ only on a missing `QR`. */
  lemma ValidateAsWrittenIff(v: OrderValues, isPhone: string -> bool)
    ensures ValidateAsWritten(v, isPhone) == [] <==> ValidOrder(v, isPhone) && !v.qr.QrAbsent?
    ensures !v.qr.QrAbsent? ==> ValidateAsWritten(v, isPhone) == Validate(v, isPhone)
  {
    if !v.qr.QrAbsent? {
      QrIssuesAgree(v.qr);
    }
  }

  /** A missing name or phone is reported, and the object rule is then not checked. */
  lemma MissingRequiredSkipsDelivery(v: OrderValues, isPhone: string -> bool)
    requires v.flp == [] || v.phone == []
    ensures Issue(QR, DeliveryMissing) !in Validate(v, isPhone)
    ensures v.flp == [] ==> Validate(v, isPhone)[0] == Issue(FLP, NameRequired)
    ensures v.flp != [] ==> Issue(Phone, PhoneRequired) in Validate(v, isPhone)
  {
    var r := Validate(v, isPhone);
    forall i | 0 <= i < |r|
      ensures r[i] != Issue(QR, DeliveryMissing)
    {
    }
  }

  /** A missing delivery is reported on the `QR` field, after the field issues. */
  lemma DeliveryReportedOnQr(v: OrderValues, isPhone: string -> bool)
    requires v.flp != [] && v.phone != []
    requires !((v.wbPhone != [] && v.orderCode != []) || v.qr.QrFiles?)
    ensures |Validate(v, isPhone)| > 0
    ensures Validate(v, isPhone)[|Validate(v, isPhone)| - 1] == Issue(QR, DeliveryMissing)
  {
  }

  // ---------------------------------------------------------------------
  // The payload

  /** The mutation's `input`. */
  datatype OrderInput = OrderInput(flp: string, qr: Option<File>, orderCode: Option<string>,
                                   wbPhone: Option<string>, phone: string)

  /** `values.QR?.[0] || null`: the first file, or `null`. */
  function FirstFile(qr: QrValue): (r: Option<File>)
    ensures r.Some? <==> qr.QrFiles? && |qr.files| > 0
    ensures r.Some? ==> r.value == qr.files[0]
  {
    if qr.QrFiles? && |qr.files| > 0 then Some(qr.files[0]) else None
  }

  /** The payload `handleSubmit` builds; `x || null` turns an empty string into `null`. */
  function Payload(v: OrderValues): OrderInput {
    OrderInput(FormatName(v.flp), FirstFile(v.qr), Prepared(v.orderCode), Prepared(v.wbPhone), v.phone)
  }

  /** The payload of a valid order carries a formatted three-word name, the
      phone as entered, and a way to receive the order: both marketplace
      fields, or a `QR` list (whose first file, if any, is sent). */
  lemma PayloadOfValid(v: OrderValues, isPhone: string -> bool)
    requires Validate(v, isPhone) == []
    ensures var p := Payload(v);
      && IsFullName(p.flp) && FormatName(p.flp) == p.flp
      && Words(p.flp) == Caps(Words(v.flp))
      && p.phone == v.phone && isPhone(p.phone)
      && ((p.wbPhone.Some? && p.orderCode.Some? && |p.orderCode.value| == 5) || v.qr.QrFiles?)
      && (p.wbPhone.Some? ==> isPhone(p.wbPhone.value))
  {
    ValidateIff(v, isPhone);
    FormatKeepsFullName(v.flp);
    FormatNameIdempotent(v.flp);
    FormatNameWords(v.flp);
  }

  /** An empty `QR` list meets the delivery rule, so a valid order can be sent
      with neither a file nor the marketplace phone and code. */
  lemma EmptyQrListSendsNothing(v: OrderValues, isPhone: string -> bool)
    requires v.flp != [] && IsFullName(v.flp) && v.phone != [] && isPhone(v.phone)
    requires v.wbPhone == [] && v.orderCode == [] && v.qr == QrFiles([])
    ensures Validate(v, isPhone) == []
    ensures Payload(v).qr.None? && Payload(v).wbPhone.None? && Payload(v).orderCode.None?
  {
    ValidateIff(v, isPhone);
  }

  // ---------------------------------------------------------------------
  // The QR code preview

  /** `bytes.reduce((data, byte) => data + String.fromCharCode(byte), acc)`. */
  function CharCodes(acc: string, bytes: seq<byte>): (r: string)
    ensures |r| == |acc| + |bytes|
    ensures r[..|acc|] == acc
    ensures forall i :: 0 <= i < |bytes| ==> r[|acc| + i] == bytes[i] as char
    decreases |bytes|
  {
    if bytes == [] then acc else CharCodes(acc + [bytes[0] as char], bytes[1..])
  }

  /** The binary string of the bytes. */
  function FromCharCodes(bytes: seq<byte>): (r: string)
    ensures |r| == |bytes|
    ensures forall i :: 0 <= i < |bytes| ==> r[i] == bytes[i] as char
  {
    var r := CharCodes("", bytes);
    assert forall i :: 0 <= i < |bytes| ==> r[|""| + i] == bytes[i] as char;
    r
  }

  /** The fold writes one character per byte with that code, so `btoa` accepts
      it and encodes exactly the bytes. */
  lemma BtoaOfCharCodes(bytes: seq<byte>)
    ensures Btoa(FromCharCodes(bytes)) == Some(Encode(bytes))
  {
    var s := FromCharCodes(bytes);
    assert IsBinaryString(s);
    var back := seq(|s|, i requires 0 <= i < |s| => s[i] as int as byte);
    assert back == bytes;
  }

  /** The buffer of the returned QR code: an object with a `data` array,
      `null` (whose `typeof` is also `'object'`), or anything else. */
  datatype Buffer = BufferData(data: seq<byte>) | NullBuffer | OtherBuffer

  datatype QrCodeFile = QrCodeFile(mime: string, buffer: Buffer)

  /** The `data:` URL (RFC 2397) of base 64 encoded content. */
  function DataUrl(mime: string, base64: string): string {
    "data:" + mime + ";base64," + base64
  }

  /** What the effect on new mutation data does: sets `qrCodeUrl`, leaves it
      as it was, or throws. */
  datatype QrEffect = SetUrl(url: string) | KeepUrl | EffectThrows

  /** The effect on new mutation data. With no QR file, or a buffer that is not
      an object, the URL is left as it was; `'data' in null` throws on a `null`
      buffer; `btoa` throws on a character above 255, which a byte never gives. */
  function QrCodeUrl(file: Option<QrCodeFile>): (r: QrEffect)
    ensures r.EffectThrows? <==> file.Some? && file.value.buffer.NullBuffer?
    ensures r.KeepUrl? <==> file.None? || file.value.buffer.OtherBuffer?
  {
    match file
    case None => KeepUrl
    case Some(f) =>
      match f.buffer
      case NullBuffer => EffectThrows
      case OtherBuffer => KeepUrl
      case BufferData(bytes) =>
        BtoaOfCharCodes(bytes);
        match Btoa(FromCharCodes(bytes))
        case None => EffectThrows
        case Some(base64) => SetUrl(DataUrl(f.mime, base64))
  }

  /** A buffer with data gives the `data:` URL of its bytes' base 64 encoding,
      and the text after `;base64,` decodes back to those bytes. */
  lemma QrCodeUrlEncodesBytes(mime: string, bytes: seq<byte>)
    ensures QrCodeUrl(Some(QrCodeFile(mime, BufferData(bytes)))) == SetUrl(DataUrl(mime, Encode(bytes)))
    ensures var url := DataUrl(mime, Encode(bytes));
      var start := |"data:" + mime + ";base64,"|;
      Decode(url[start..]) == Some(bytes)
  {
    BtoaOfCharCodes(bytes);
    DecodeEncode(bytes);
    var prefix := "data:" + mime + ";base64,";
    assert DataUrl(mime, Encode(bytes))[|prefix|..] == Encode(bytes);
  }

  // ---------------------------------------------------------------------
  // Submitting

  /** The order page: its Formik form, the `isReset` flag that shows the
      confirmation, the toast id ref, and what was sent and shown. */
  class OrderPage {
    const form: Form
    var isReset: bool
    var toastId: Option<nat>
    /** The descriptions of the toasts shown, in order. */
    var toasts: seq<string>
    /** The ids of the toasts closed, in order. */
    var closedToasts: seq<nat>
    /** The payloads sent to the mutation, in order. */
    var sent: seq<OrderInput>

    constructor (form: Form)
      ensures this.form == form && !isReset && toastId.None?
      ensures toasts == [] && closedToasts == [] && sent == []
    {
      this.form := form;
      isReset := false;
      toastId := None;
      toasts := [];
      closedToasts := [];
      sent := [];
    }

    /** The confirmation replaces the form once data came back and the form was reset. */
    predicate ShowsConfirmation(hasData: bool)
      reads this
    {
      hasData && isReset
    }

    /** Closes the current toast when its id is truthy, then shows a new one
        and keeps its id. */
    method ReplaceToast(description: string, newId: nat)
      modifies this
      ensures closedToasts == old(closedToasts) + (if Truthy(old(toastId)) then [old(toastId).value] else [])
      ensures toasts == old(toasts) + [description] && toastId == Some(newId)
      ensures isReset == old(isReset) && sent == old(sent)
    {
      if Truthy(toastId) {
        closedToasts := closedToasts + [toastId.value];
      }
      toasts := toasts + [description];
      toastId := Some(newId);
    }

    /** `handleSubmit`: sends the payload; on success resets the form, sets the
        status `"submitted"` and shows the confirmation; on failure shows a toast
        for a GraphQL error or an `Error` and sets the status `"error"`; in
        every case clears `isSubmitting`. */
    method HandleSubmit(values: OrderValues, outcome: Outcome, newToastId: nat)
      modifies this, form
      ensures sent == old(sent) + [Payload(values)]
      ensures outcome.Created? ==>
        && form.state == Initial(form.initialValues).(status := Some(Submitted))
        && isReset && toasts == old(toasts) && toastId == old(toastId) && closedToasts == old(closedToasts)
      ensures !outcome.Created? ==>
        && form.state == old(form.state).(status := Some(Failed), isSubmitting := false)
        && isReset == old(isReset)
      ensures (outcome.GraphQLFailure? || outcome.ErrorFailure?) ==>
        && toasts == old(toasts) + [outcome.message] && toastId == Some(newToastId)
        && closedToasts == old(closedToasts) + (if Truthy(old(toastId)) then [old(toastId).value] else [])
      ensures outcome.OtherFailure? ==>
        toasts == old(toasts) && toastId == old(toastId) && closedToasts == old(closedToasts)
      ensures !form.state.isSubmitting
      ensures ShowsConfirmation(true) <==> outcome.Created? || old(isReset)
    {
      var payload := Payload(values);
      sent := sent + [payload];
      if outcome.Created? {
        form.ResetForm();
        form.SetStatus(Submitted);
        isReset := true;
      } else {
        if outcome.GraphQLFailure? || outcome.ErrorFailure? {
          ReplaceToast(outcome.message, newToastId);
        }
        form.SetStatus(Failed);
      }
      form.SetSubmitting(false);
    }

    /** The state a successful submit leaves, seen by the form's `<Persist name='wb-order' />`
        on its next update, removes the stored draft. */
    lemma CreatedClearsDraft(items: map<string, FormState>, prev: FormState)
      requires prev.status != Some(Submitted)
      ensures "wb-order" !in PersistForm.AfterUpdate(items, "wb-order", [], prev,
                                                     Initial(form.initialValues).(status := Some(Submitted)))
    {
      PersistForm.SubmittedClearsDraft(items, "wb-order", [], prev, Initial(form.initialValues).(status := Some(Submitted)));
    }

    /** The confirmation's button goes back to the form. */
    method NewOrder()
      modifies this
      ensures !isReset && toastId == old(toastId) && toasts == old(toasts) && sent == old(sent)
      ensures closedToasts == old(closedToasts)
      ensures !ShowsConfirmation(true)
    {
      isReset := false;
    }
  }
}
