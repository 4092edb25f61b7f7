/** The form validators. Each returns `None` when the value is acceptable
    and otherwise exactly one message; the "required" test always comes
    before the format or range test. */
module Validation {
  import opened Wrappers
  import opened Text
  import opened JsValue
  import opened Helpers

  const EmailRequired := "Email wajib diisi"
  const EmailFormat := "Format email tidak valid"
  const PasswordRequired := "Password wajib diisi"
  const PasswordShort := "Password minimal 6 karakter"
  const PhoneRequired := "Nomor telepon wajib diisi"
  const PhoneFormat := "Format nomor telepon tidak valid"
  const AgeRequired := "Usia wajib diisi"
  const AgeRange := "Usia harus antara 13-100 tahun"
  const PriceRequired := "Harga wajib diisi"
  const PricePositive := "Harga harus lebih dari 0"
  const StockRequired := "Stok wajib diisi"
  const StockNegative := "Stok tidak boleh negatif"

  /** The message naming a missing field. */
  function RequiredMessage(fieldName: string): string {
    fieldName + " wajib diisi"
  }

  /** A value a person has actually filled in: truthy, and not text made
      only of white space. */
  predicate Filled(v: Value) {
    Truthy(v) && !BlankText(v)
  }

  /** `validateRequired`: rejects falsy values and values whose string
      form trims to nothing. */
  function ValidateRequired(value: Value, fieldName: string): (r: Option<string>)
    ensures r == None <==> Filled(value)
    ensures r != None ==> r == Some(RequiredMessage(fieldName))
  {
    if !Truthy(value) then Some(RequiredMessage(fieldName))
    else if value.Text? && (TrimEmptyIffBlank(value.s); Trim(value.s) == []) then Some(RequiredMessage(fieldName))
    else None
  }

  /** The number 0, a missing value and any text of white space (the empty
      text included) are missing. */
  lemma RequiredExamples(fieldName: string, blank: string)
    requires Blank(blank)
    ensures ValidateRequired(Number(0.0), fieldName) == Some(RequiredMessage(fieldName))
    ensures ValidateRequired(Missing, fieldName) == Some(RequiredMessage(fieldName))
    ensures ValidateRequired(Text(blank), fieldName) == Some(RequiredMessage(fieldName))
  {
  }

  /** Text that starts with a digit, such as "0", is present, and so is any
      non-zero number. */
  lemma PresentExamples(fieldName: string, digits: string, n: real)
    requires |digits| > 0 && IsDigit(digits[0]) && n != 0.0
    ensures ValidateRequired(Text(digits), fieldName) == None
    ensures ValidateRequired(Number(n), fieldName) == None
  {
    DigitIsNotSpace(digits[0]);
  }

  /** `validateEmail` on the text of a field. */
  function ValidateEmail(email: string): (r: Option<string>)
    ensures email == [] ==> r == Some(EmailRequired)
    ensures email != [] ==> (r == None <==> Mailbox(email))
    ensures email != [] && r != None ==> r == Some(EmailFormat)
    ensures r in {None, Some(EmailRequired), Some(EmailFormat)}
  {
    if email == [] then Some(EmailRequired)
    else if !(EmailPatternIsMailbox(email); EmailPattern(email)) then Some(EmailFormat)
    else None
  }

  /** `validatePassword`: at least six characters. */
  function ValidatePassword(password: string): (r: Option<string>)
    ensures r == None <==> |password| >= 6
    ensures password == [] ==> r == Some(PasswordRequired)
    ensures password != [] && r != None ==> r == Some(PasswordShort)
    ensures r in {None, Some(PasswordRequired), Some(PasswordShort)}
  {
    if password == [] then Some(PasswordRequired)
    else if |password| < 6 then Some(PasswordShort)
    else None
  }

  /** `validatePhone`: the same language as the helper pattern. */
  function ValidatePhone(phone: string): (r: Option<string>)
    ensures phone == [] ==> r == Some(PhoneRequired)
    ensures phone != [] && r != None ==> r == Some(PhoneFormat)
    ensures r == None <==> PhonePattern(phone)
    ensures r == None ==> 9 <= |phone| <= 14
    ensures r in {None, Some(PhoneRequired), Some(PhoneFormat)}
  {
    if phone == [] then Some(PhoneRequired)
    else if !PhonePattern(phone) then Some(PhoneFormat)
    else (PhoneLengths(phone); None)
  }

  /** `validateAge`. A falsy value is missing; otherwise the value is
      compared as a number with 13 and 100, and text that is not a number
      (NaN) fails neither comparison and so passes. */
  function ValidateAge(age: Value): (r: Option<string>)
    ensures !Truthy(age) ==> r == Some(AgeRequired)
    ensures Truthy(age) && ToNumber(age).Some? ==>
      (r == None <==> 13.0 <= ToNumber(age).value <= 100.0)
    ensures Truthy(age) && ToNumber(age).None? ==> r == None
    ensures Truthy(age) && r != None ==> r == Some(AgeRange)
    ensures r in {None, Some(AgeRequired), Some(AgeRange)}
  {
    if !Truthy(age) then Some(AgeRequired)
    else match ToNumber(age)
      case Some(n) => if n < 13.0 || n > 100.0 then Some(AgeRange) else None
      case None => None
  }

  /** `validatePrice`: a falsy value is missing; a value that is zero or
      negative as a number is rejected; text that is not a number passes. */
  function ValidatePrice(price: Value): (r: Option<string>)
    ensures !Truthy(price) ==> r == Some(PriceRequired)
    ensures Truthy(price) && ToNumber(price).Some? ==>
      (r == None <==> ToNumber(price).value > 0.0)
    ensures Truthy(price) && ToNumber(price).None? ==> r == None
    ensures Truthy(price) && r != None ==> r == Some(PricePositive)
    ensures r in {None, Some(PriceRequired), Some(PricePositive)}
  {
    if !Truthy(price) then Some(PriceRequired)
    else match ToNumber(price)
      case Some(n) => if n <= 0.0 then Some(PricePositive) else None
      case None => None
  }

  /** `validateStock`: only `null`/`undefined` is missing; a value that is
      negative as a number is rejected. */
  function ValidateStock(stock: Value): (r: Option<string>)
    ensures r == Some(StockRequired) <==> stock == Missing
    ensures stock != Missing && ToNumber(stock).Some? ==>
      (r == None <==> ToNumber(stock).value >= 0.0)
    ensures stock != Missing && ToNumber(stock).None? ==> r == None
    ensures stock != Missing && r != None ==> r == Some(StockNegative)
  {
    if stock == Missing then Some(StockRequired)
    else match ToNumber(stock)
      case Some(n) => if n < 0.0 then Some(StockNegative) else None
      case None => None
  }

  /** `validateStock` as its message intends: a stock field left empty (or
      holding only spaces) is missing too, not only `null`/`undefined`. */
  function ValidateStockFilled(stock: Value): (r: Option<string>)
    ensures r == Some(StockRequired) <==> stock == Missing || BlankText(stock)
    ensures !(stock == Missing || BlankText(stock)) ==> r == ValidateStock(stock)
  {
    if stock == Missing || BlankText(stock) then Some(StockRequired) else ValidateStock(stock)
  }

  /** The number 0 is a missing price, while the typed text "0" is present
      and fails the positivity test instead. */
  lemma PriceZeroExamples()
    ensures ValidatePrice(Number(0.0)) == Some(PriceRequired)
    ensures ValidatePrice(Text("0")) == Some(PricePositive)
    ensures ValidatePrice(Number(-5.0)) == Some(PricePositive)
  {
    StringToNumberOfDigit('0');
    assert ToNumber(Text("0")) == Some(0.0);
  }

  /** The number 0 is a missing age, while the typed text "0" is present
      and fails the range test instead. */
  lemma AgeZeroExamples()
    ensures ValidateAge(Number(0.0)) == Some(AgeRequired)
    ensures ValidateAge(Text("0")) == Some(AgeRange)
  {
    StringToNumberOfDigit('0');
  }

  /** The text "0" reads as the number 0. */
  lemma StringToNumberOfDigit(c: char)
    requires IsDigit(c)
    ensures Numbers.StringToNumber([c]) == Some(DigitValue(c) as real)
  {
    Numbers.NoSpaceAround([c]);
    Numbers.WholeDecimalOfDigits([c]);
    assert Numbers.SplitSign([c]) == (false, [c]);
    assert [c][..0] == [];
    assert DecimalValue([c]) == DigitValue(c);
  }

  /** Blank text reads as the number 0. */
  lemma BlankReadsAsZero(s: string)
    requires Blank(s)
    ensures ToNumber(Text(s)) == Some(0.0)
  {
    TrimEmptyIffBlank(s);
  }

  /** A stock field left empty, or holding only spaces, passes the check
      as written, because it compares as the number 0; the intended check
      refuses it with the stock message. */
  lemma BlankStockPasses(s: string)
    requires Blank(s)
    ensures ValidateStock(Text(s)) == None
    ensures ValidateStockFilled(Text(s)) == Some(StockRequired)
  {
    BlankReadsAsZero(s);
  }

  /** Stock zero, typed or stored, passes both checks. */
  lemma ZeroStockPasses()
    ensures ValidateStock(Number(0.0)) == None
    ensures ValidateStock(Text("0")) == None
    ensures ValidateStockFilled(Text("0")) == None
  {
    StringToNumberOfDigit('0');
    DigitIsNotSpace('0');
  }
}
