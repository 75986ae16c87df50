/**
 * `BrCode` (src/models/BrCode.ts): the inputs of a Pix "BR Code" payment payload, the Banco
 * Central do Brasil profile of the EMV QR Code Merchant-Presented Mode. The object stores six
 * text fields; its formatting functions derive the payload values from them, and
 * `GenerateQrcp` selects the data objects handed to the EMV payload builder.
 */
module Models {

  import opened Wrappers
  import opened Text
  import opened Emv

  /** The globally unique identifier of the Pix arrangement, sub-tag 00 of template 26. */
  const PixGui := "BR.GOV.BCB.PIX"

  /** The sub-tag under which the Pix key goes in the merchant account information template. */
  const PixKeySubTag: Tag := 1

  /** The international calling code prefixed to phone keys. */
  const BrazilCallingCode := "+55"

  /** The reference label used when there is no reference. */
  const DefaultReferenceLabel := "***"

  /** The key types `formated_key` recognises, compared after lower-casing. */
  const PhoneKeyType := "telefone"
  const CnpjKeyType := "cnpj"
  const CpfKeyType := "cpf"

  class BrCode {
    var key: string
    var amount: string
    var name: string
    var reference: string
    var keyType: string
    var city: string

    /**
     * `normalize`: a missing text (`null` or `undefined`) becomes the empty string; a present
     * one is passed through the HTML stripper, which is external and given as `stripHtml`.
     */
    static function Normalize(text: Option<string>, stripHtml: string -> string): (r: string)
      ensures text.None? ==> r == ""
      ensures text.Some? ==> r == stripHtml(text.value)
    {
      match text
      case None => ""
      case Some(t) => stripHtml(t)
    }

    /** Every field holds the normalised argument, so no field is ever missing. */
    constructor(key: Option<string>, amount: Option<string>, name: Option<string>,
                reference: Option<string>, keyType: Option<string>, city: Option<string>,
                stripHtml: string -> string)
      ensures this.key == Normalize(key, stripHtml)
      ensures this.amount == Normalize(amount, stripHtml)
      ensures this.name == Normalize(name, stripHtml)
      ensures this.reference == Normalize(reference, stripHtml)
      ensures this.keyType == Normalize(keyType, stripHtml)
      ensures this.city == Normalize(city, stripHtml)
    {
      this.key := Normalize(key, stripHtml);
      this.amount := Normalize(amount, stripHtml);
      this.name := Normalize(name, stripHtml);
      this.reference := Normalize(reference, stripHtml);
      this.keyType := Normalize(keyType, stripHtml);
      this.city := Normalize(city, stripHtml);
    }

    /** `formated_name`: the merchant name without combining marks and outer whitespace. */
    function FormatedName(): (r: string)
      reads this
      ensures NoMarks(r)
      ensures Trimmed(r)
      ensures FormatText(r) == r
    {
      FormatTextIdempotent(name);
      FormatText(name)
    }

    /** `formated_city`: the merchant city without combining marks and outer whitespace. */
    function FormatedCity(): (r: string)
      reads this
      ensures NoMarks(r)
      ensures Trimmed(r)
      ensures FormatText(r) == r
    {
      FormatTextIdempotent(city);
      FormatText(city)
    }

    /**
     * `formated_amount`: an empty amount gives the empty string; otherwise the first `.` is
     * deleted, the first `,` becomes `.`, the first space is deleted and the first `R$` is
     * deleted, in that order. None of the steps lengthens the text.
     */
    function FormatedAmount(): (r: string)
      reads this
      ensures amount == "" ==> r == ""
      ensures |r| <= |amount|
    {
      if amount != "" then
        ReplaceFirst(ReplaceFirst(ReplaceFirst(ReplaceFirst(amount, ".", ""), ",", "."), " ", ""), "R$", "")
      else
        ""
    }

    /**
     * `formated_referance`: the formatted reference with its first space deleted. The formatted
     * text has no outer whitespace, so that space is an inner one and the result is still trimmed.
     */
    function FormatedReferance(): (r: string)
      reads this
      ensures NoMarks(r)
      ensures Trimmed(r)
      ensures |r| == |FormatText(reference)| - (if IndexOf(FormatText(reference), " ").Some? then 1 else 0)
      ensures IndexOf(FormatText(reference), " ").None? ==> r == FormatText(reference)
      ensures IndexOf(FormatText(reference), " ").Some? ==>
        var i := IndexOf(FormatText(reference), " ").value;
        r == FormatText(reference)[..i] + FormatText(reference)[i + 1..]
    {
      var t := FormatText(reference);
      DeleteFirstSpaceOfTrimmed(t);
      ReplaceFirst(t, " ", "")
    }

    /**
     * `formated_key`: for the key types `telefone`, `cnpj` and `cpf` (in any letter case) only the
     * digits of the key are kept, and a phone key gets the prefix `+55`; any other key is only
     * trimmed.
     */
    function FormatedKey(): (r: string)
      reads this
      ensures ToLower(keyType) == CpfKeyType || ToLower(keyType) == CnpjKeyType ==> r == Digits(key)
      ensures ToLower(keyType) == PhoneKeyType ==>
        |r| >= 3 && r[..3] == BrazilCallingCode && r[3..] == Digits(key) && AllDigits(r[3..])
      ensures ToLower(keyType) != PhoneKeyType && ToLower(keyType) != CnpjKeyType && ToLower(keyType) != CpfKeyType ==>
        r == Trim(key)
    {
      var ktype := ToLower(keyType);
      var rkey := if ktype == PhoneKeyType || ktype == CnpjKeyType || ktype == CpfKeyType then Digits(key) else key;
      var rkey' := if ktype == PhoneKeyType then BrazilCallingCode + rkey else rkey;
      PrefixSplits(rkey);
      TrimOfKey(rkey);
      TrimOfKey(BrazilCallingCode + rkey);
      Trim(rkey')
    }

    /**
     * `generate_qrcp`, up to the builder's serialisation: the data objects handed to the EMV
     * payload builder, which are the Pix fields with the formatted key, the formatted name, city
     * and amount exactly when their field is non-empty, and the formatted reference or `***` as
     * reference label (`PixFieldsFind` says what each tag then yields). Every tag occurs once.
     */
    method GenerateQrcp() returns (objects: seq<DataObject>)
      ensures DistinctTags(objects)
      ensures objects ==
        PixFields(FormatedKey(), if name != "" then Some(FormatedName()) else None,
                  if city != "" then Some(FormatedCity()) else None,
                  if amount != "" then Some(FormatedAmount()) else None,
                  if reference != "" then FormatedReferance() else DefaultReferenceLabel)
    {
      var pixKey := FormatedKey();
      var merchantName := if name != "" then Some(FormatedName()) else None;
      var merchantCity := if city != "" then Some(FormatedCity()) else None;
      var transactionAmount := if amount != "" then Some(FormatedAmount()) else None;
      var referenceLabel := if reference != "" then FormatedReferance() else DefaultReferenceLabel;
      objects := SetPixFields(pixKey, merchantName, merchantCity, transactionAmount, referenceLabel);
    }
  }

  /** The data object an optional field contributes: none when the field is absent. */
  function Present(tag: Tag, value: Option<string>): seq<DataObject> {
    if value.Some? then [Primitive(tag, value.value)] else []
  }

  /** A setter called only when there is a value: with none, nothing changes. */
  method SetIfPresent(objects: seq<DataObject>, tag: Tag, value: Option<string>) returns (r: seq<DataObject>)
    ensures forall t :: Find(r, t) == if t == tag && value.Some? then Some(Primitive(tag, value.value)) else Find(objects, t)
    ensures DistinctTags(objects) ==> DistinctTags(r)
    ensures Find(objects, tag).None? ==> r == objects + Present(tag, value)
    ensures value.None? ==> r == objects
  {
    r := objects;
    if value.Some? {
      r := Set(objects, Primitive(tag, value.value));
    }
  }

  /**
   * The data objects of a Pix payload in the order the setters are called: the four fixed
   * fields, the merchant account template with the Pix GUI and key, then the name, city and
   * amount when present, and last the additional data template with the reference label.
   */
  function PixFields(pixKey: string, merchantName: Option<string>, merchantCity: Option<string>,
                     transactionAmount: Option<string>, referenceLabel: string): seq<DataObject>
  {
    [Primitive(PayloadFormatIndicator, "01"), Primitive(CountryCode, "BR"),
     Primitive(MerchantCategoryCode, "0000"), Primitive(TransactionCurrency, "986"),
     Template(MerchantAccountInformation,
              [Primitive(GloballyUniqueIdentifier, PixGui), Primitive(PixKeySubTag, pixKey)])]
    + Present(MerchantName, merchantName) + Present(MerchantCity, merchantCity)
    + Present(TransactionAmount, transactionAmount)
    + [Template(AdditionalDataFieldTemplate, [Primitive(ReferenceLabel, referenceLabel)])]
  }

  /** Looking up past an optional field. */
  lemma FindPresent(tag: Tag, value: Option<string>, rest: seq<DataObject>, t: Tag)
    ensures Find(Present(tag, value) + rest, t) ==
      if t == tag && value.Some? then Some(Primitive(tag, value.value)) else Find(rest, t)
  {
    if value.None? {
      assert Present(tag, value) + rest == rest;
    } else {
      assert (Present(tag, value) + rest)[1..] == rest;
    }
  }

  /** What each tag yields in the optional fields and the additional data template. */
  lemma OptionalFieldsFind(merchantName: Option<string>, merchantCity: Option<string>,
                           transactionAmount: Option<string>, referenceLabel: string, t: Tag)
    ensures Find(Present(MerchantName, merchantName) + Present(MerchantCity, merchantCity)
                 + Present(TransactionAmount, transactionAmount)
                 + [Template(AdditionalDataFieldTemplate, [Primitive(ReferenceLabel, referenceLabel)])], t) ==
      if t == MerchantName && merchantName.Some? then Some(Primitive(MerchantName, merchantName.value))
      else if t == MerchantCity && merchantCity.Some? then Some(Primitive(MerchantCity, merchantCity.value))
      else if t == TransactionAmount && transactionAmount.Some? then
        Some(Primitive(TransactionAmount, transactionAmount.value))
      else if t == AdditionalDataFieldTemplate then
        Some(Template(AdditionalDataFieldTemplate, [Primitive(ReferenceLabel, referenceLabel)]))
      else None
  {
    var last := [Template(AdditionalDataFieldTemplate, [Primitive(ReferenceLabel, referenceLabel)])];
    var r3 := Present(TransactionAmount, transactionAmount) + last;
    var r2 := Present(MerchantCity, merchantCity) + r3;
    var r1 := Present(MerchantName, merchantName) + r2;
    assert Present(MerchantName, merchantName) + Present(MerchantCity, merchantCity)
      + Present(TransactionAmount, transactionAmount) + last == r1;
    FindCons(last[0], [], t);
    assert last == [last[0]] + [];
    FindPresent(TransactionAmount, transactionAmount, last, t);
    FindPresent(MerchantCity, merchantCity, r3, t);
    FindPresent(MerchantName, merchantName, r2, t);
  }

  /**
   * What each tag yields in the Pix data objects: the fixed values, the merchant account and
   * additional data templates, name, city and amount exactly when present, and nothing for any
   * other tag.
   */
  lemma PixFieldsFind(pixKey: string, merchantName: Option<string>, merchantCity: Option<string>,
                      transactionAmount: Option<string>, referenceLabel: string, t: Tag)
    ensures Find(PixFields(pixKey, merchantName, merchantCity, transactionAmount, referenceLabel), t) ==
      if t == PayloadFormatIndicator then Some(Primitive(PayloadFormatIndicator, "01"))
      else if t == CountryCode then Some(Primitive(CountryCode, "BR"))
      else if t == MerchantCategoryCode then Some(Primitive(MerchantCategoryCode, "0000"))
      else if t == TransactionCurrency then Some(Primitive(TransactionCurrency, "986"))
      else if t == MerchantAccountInformation then
        Some(Template(MerchantAccountInformation,
                      [Primitive(GloballyUniqueIdentifier, PixGui), Primitive(PixKeySubTag, pixKey)]))
      else if t == MerchantName && merchantName.Some? then Some(Primitive(MerchantName, merchantName.value))
      else if t == MerchantCity && merchantCity.Some? then Some(Primitive(MerchantCity, merchantCity.value))
      else if t == TransactionAmount && transactionAmount.Some? then
        Some(Primitive(TransactionAmount, transactionAmount.value))
      else if t == AdditionalDataFieldTemplate then
        Some(Template(AdditionalDataFieldTemplate, [Primitive(ReferenceLabel, referenceLabel)]))
      else None
  {
    var r1 := Present(MerchantName, merchantName) + Present(MerchantCity, merchantCity)
      + Present(TransactionAmount, transactionAmount)
      + [Template(AdditionalDataFieldTemplate, [Primitive(ReferenceLabel, referenceLabel)])];
    OptionalFieldsFind(merchantName, merchantCity, transactionAmount, referenceLabel, t);
    var l5 := [Template(MerchantAccountInformation,
                        [Primitive(GloballyUniqueIdentifier, PixGui), Primitive(PixKeySubTag, pixKey)])] + r1;
    var l4 := [Primitive(TransactionCurrency, "986")] + l5;
    var l3 := [Primitive(MerchantCategoryCode, "0000")] + l4;
    var l2 := [Primitive(CountryCode, "BR")] + l3;
    var l1 := [Primitive(PayloadFormatIndicator, "01")] + l2;
    assert PixFields(pixKey, merchantName, merchantCity, transactionAmount, referenceLabel) == l1;
    FindCons(l5[0], r1, t);
    FindCons(l4[0], l5, t);
    FindCons(l3[0], l4, t);
    FindCons(l2[0], l3, t);
    FindCons(l1[0], l2, t);
  }

  /**
   * The setter calls of `generate_qrcp`, in their order, given the already formatted values: an
   * absent name, city or amount is not set at all.
   */
  method SetPixFields(pixKey: string, merchantName: Option<string>, merchantCity: Option<string>,
                      transactionAmount: Option<string>, referenceLabel: string)
    returns (objects: seq<DataObject>)
    ensures objects == PixFields(pixKey, merchantName, merchantCity, transactionAmount, referenceLabel)
    ensures DistinctTags(objects)
  {
    var emvqr: seq<DataObject> := [];
    emvqr := Set(emvqr, Primitive(PayloadFormatIndicator, "01"));
    emvqr := Set(emvqr, Primitive(CountryCode, "BR"));
    emvqr := Set(emvqr, Primitive(MerchantCategoryCode, "0000"));
    emvqr := Set(emvqr, Primitive(TransactionCurrency, "986"));

    var merchantAccountInformation: seq<DataObject> := [];
    merchantAccountInformation := merchantAccountInformation + [Primitive(GloballyUniqueIdentifier, PixGui)];
    merchantAccountInformation := merchantAccountInformation + [Primitive(PixKeySubTag, pixKey)];
    assert merchantAccountInformation == [Primitive(GloballyUniqueIdentifier, PixGui), Primitive(PixKeySubTag, pixKey)];
    emvqr := Set(emvqr, Template(MerchantAccountInformation, merchantAccountInformation));
    ghost var fixed := emvqr;
    assert fixed == [Primitive(PayloadFormatIndicator, "01"), Primitive(CountryCode, "BR"),
      Primitive(MerchantCategoryCode, "0000"), Primitive(TransactionCurrency, "986"),
      Template(MerchantAccountInformation, merchantAccountInformation)];

    emvqr := SetIfPresent(emvqr, MerchantName, merchantName);
    emvqr := SetIfPresent(emvqr, MerchantCity, merchantCity);
    emvqr := SetIfPresent(emvqr, TransactionAmount, transactionAmount);
    assert emvqr == fixed + Present(MerchantName, merchantName) + Present(MerchantCity, merchantCity)
      + Present(TransactionAmount, transactionAmount);

    var additionalDataFieldTemplate: seq<DataObject> := [];
    additionalDataFieldTemplate := additionalDataFieldTemplate + [Primitive(ReferenceLabel, referenceLabel)];
    assert additionalDataFieldTemplate == [Primitive(ReferenceLabel, referenceLabel)];
    emvqr := Set(emvqr, Template(AdditionalDataFieldTemplate, additionalDataFieldTemplate));

    objects := emvqr;
  }

  /** Proof step of `FormatedKey`: the `+55` prefix splits off again. */
  lemma PrefixSplits(d: string)
    ensures (BrazilCallingCode + d)[..3] == BrazilCallingCode && (BrazilCallingCode + d)[3..] == d
  {
  }

  /** A digit string, with or without the `+55` prefix, has no outer whitespace and survives `trim`. */
  lemma TrimOfKey(s: string)
    ensures AllDigits(s) || (|s| >= 3 && s[..3] == BrazilCallingCode && AllDigits(s[3..])) ==> Trim(s) == s
  {
    if s != [] && (AllDigits(s) || (|s| >= 3 && s[..3] == BrazilCallingCode && AllDigits(s[3..]))) {
      assert !IsWhitespace(s[0]);
      assert !IsWhitespace(s[|s| - 1]);
    }
  }

  /** The key type is compared without regard to letter case: only its lower-cased form matters. */
  lemma FormatedKeyIgnoresCase(b1: BrCode, b2: BrCode)
    requires b1.key == b2.key && ToLower(b1.keyType) == ToLower(b2.keyType)
    ensures b1.FormatedKey() == b2.FormatedKey()
  {
  }

  /** `"CPF"` in capitals is the CPF key type: the key keeps only its digits. */
  lemma CapitalCpfKeyType(b: BrCode)
    requires b.keyType == "CPF"
    ensures b.FormatedKey() == Digits(b.key)
  {
    assert ToLower(b.keyType) == CpfKeyType by {
      ToLowerCharwise(b.keyType);
    }
  }

  /** A digit string holds none of the characters `formated_amount` rewrites. */
  lemma DigitsHaveNoSeparators(x: string)
    requires AllDigits(x)
    ensures '.' !in x && ',' !in x && ' ' !in x && 'R' !in x
  {
  }

  // The worked amounts of `formated_amount` ("1.234,56", "R$ 45,50", "45.50", "1.234.567,89"),
  // stated for every digit string in place of the digits.

  /** `"<w>.<t>,<c>"` becomes `"<w><t>.<c>"`: `"1.234,56"` gives `"1234.56"`. */
  lemma AmountWithThousandsSeparator(b: BrCode, whole: string, thousands: string, cents: string)
    requires AllDigits(whole) && AllDigits(thousands) && AllDigits(cents)
    requires b.amount == whole + "." + thousands + "," + cents
    ensures b.FormatedAmount() == whole + thousands + "." + cents
  {
    DigitsHaveNoSeparators(whole);
    DigitsHaveNoSeparators(thousands);
    DigitsHaveNoSeparators(cents);
    var s0 := b.amount;
    var s1 := (whole + thousands) + [','] + cents;
    var s2 := (whole + thousands) + ['.'] + cents;
    assert ReplaceFirst(s0, ".", "") == s1 by {
      ReplaceCharAfter(whole, '.', "", thousands + "," + cents);
      assert s0 == whole + ['.'] + (thousands + "," + cents);
      assert whole + "" + (thousands + "," + cents) == s1;
    }
    assert ReplaceFirst(s1, ",", ".") == s2 by {
      ReplaceCharAfter(whole + thousands, ',', ".", cents);
    }
    assert ReplaceFirst(s2, " ", "") == s2 && ReplaceFirst(s2, "R$", "") == s2 by {
      ReplaceAbsentHead(s2, " ", "");
      ReplaceAbsentHead(s2, "R$", "");
    }
    assert s2 == whole + thousands + "." + cents;
  }

  /** `"R$ <w>,<c>"` becomes `"<w>.<c>"`: `"R$ 45,50"` gives `"45.50"`. */
  lemma AmountWithCurrencySign(b: BrCode, whole: string, cents: string)
    requires AllDigits(whole) && AllDigits(cents)
    requires b.amount == "R$ " + whole + "," + cents
    ensures b.FormatedAmount() == whole + "." + cents
  {
    DigitsHaveNoSeparators(whole);
    DigitsHaveNoSeparators(cents);
    var s0 := b.amount;
    var s2 := "R$ " + whole + "." + cents;
    var s3 := "R$" + (whole + "." + cents);
    assert ReplaceFirst(s0, ".", "") == s0 by {
      ReplaceAbsentHead(s0, ".", "");
    }
    assert ReplaceFirst(s0, ",", ".") == s2 by {
      ReplaceCharAfter("R$ " + whole, ',', ".", cents);
    }
    assert ReplaceFirst(s2, " ", "") == s3 by {
      ReplaceCharAfter("R$", ' ', "", whole + "." + cents);
      assert s2 == "R$" + [' '] + (whole + "." + cents);
    }
    assert ReplaceFirst(s3, "R$", "") == whole + "." + cents by {
      assert s3[..2] == "R$";
    }
  }

  /** `"<w>.<c>"` becomes `"<w><c>"`: `"45.50"` gives `"4550"`, the point is taken for a thousands separator. */
  lemma AmountWithDecimalPoint(b: BrCode, whole: string, cents: string)
    requires AllDigits(whole) && AllDigits(cents)
    requires b.amount == whole + "." + cents
    ensures b.FormatedAmount() == whole + cents
  {
    DigitsHaveNoSeparators(whole);
    DigitsHaveNoSeparators(cents);
    var s1 := whole + cents;
    assert ReplaceFirst(b.amount, ".", "") == s1 by {
      ReplaceCharAfter(whole, '.', "", cents);
    }
    assert ReplaceFirst(s1, ",", ".") == s1 && ReplaceFirst(s1, " ", "") == s1 && ReplaceFirst(s1, "R$", "") == s1 by {
      ReplaceAbsentHead(s1, ",", ".");
      ReplaceAbsentHead(s1, " ", "");
      ReplaceAbsentHead(s1, "R$", "");
    }
  }

  /**
   * Only the first thousands separator is deleted: `"<a>.<b>.<c>,<d>"` becomes
   * `"<a><b>.<c>.<d>"`, so `"1.234.567,89"` gives `"1234.567.89"`.
   */
  lemma AmountWithTwoThousandsSeparators(b: BrCode, a: string, b1: string, c: string, d: string)
    requires AllDigits(a) && AllDigits(b1) && AllDigits(c) && AllDigits(d)
    requires b.amount == a + "." + b1 + "." + c + "," + d
    ensures b.FormatedAmount() == a + b1 + "." + c + "." + d
  {
    DigitsHaveNoSeparators(a);
    DigitsHaveNoSeparators(b1);
    DigitsHaveNoSeparators(c);
    DigitsHaveNoSeparators(d);
    var s0 := b.amount;
    var s1 := (a + b1 + "." + c) + [','] + d;
    var s2 := (a + b1 + "." + c) + ['.'] + d;
    assert s0 != "";
    assert ReplaceFirst(ReplaceFirst(ReplaceFirst(ReplaceFirst(s0, ".", ""), ",", "."), " ", ""), "R$", "") == s2 by {
    assert ReplaceFirst(s0, ".", "") == s1 by {
      ReplaceCharAfter(a, '.', "", b1 + "." + c + "," + d);
      assert s0 == a + ['.'] + (b1 + "." + c + "," + d);
      assert a + "" + (b1 + "." + c + "," + d) == s1;
    }
    assert ReplaceFirst(s1, ",", ".") == s2 by {
      ReplaceCharAfter(a + b1 + "." + c, ',', ".", d);
    }
    assert ReplaceFirst(s2, " ", "") == s2 && ReplaceFirst(s2, "R$", "") == s2 by {
      ReplaceAbsentHead(s2, " ", "");
      ReplaceAbsentHead(s2, "R$", "");
    }
    }
    assert s2 == a + b1 + "." + c + "." + d;
  }
}
