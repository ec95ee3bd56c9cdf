/** Request schema of the KYC submission. */
module CompanyValidation {
  import opened Common
  import opened Text
  import opened Schema

  datatype ContactPerson = ContactPerson(name: string, phone: string, email: Option<string>, role: Option<string>)

  datatype SubmitKycInput = SubmitKycInput(registrationNumber: string, businessAddress: string, contactDetails: ContactPerson)

  /** An optional field: absent, or a string that satisfies `ok`. */
  predicate OptionalStrAt(j: Json, key: string, ok: string -> bool)
  {
    Field(j, key).None? || (StrAt(j, key).Some? && ok(StrAt(j, key).value))
  }

  /** `contactPersonSchema`: name of at least 2 and phone of at least 10 code
      units; the email and the role may be left out, but when present must be
      an email address and at least 2 code units long. */
  function ParseContactPerson(isEmail: string -> bool, path: seq<string>, v: Option<Json>): (r: Parsed<ContactPerson>)
    ensures r.Valid? <==> v.Some? && v.value.JObject?
                          && StrMinAt(v.value, "name", 2) && StrMinAt(v.value, "phone", 10)
                          && OptionalStrAt(v.value, "email", isEmail)
                          && OptionalStrAt(v.value, "role", (s: string) => Utf16Length(s) >= 2)
    ensures r.Valid? ==>
      && StrAt(v.value, "name") == Some(r.value.name)
      && StrAt(v.value, "phone") == Some(r.value.phone)
      && (r.value.email.None? <==> Field(v.value, "email").None?)
      && (r.value.email.Some? ==> StrAt(v.value, "email") == r.value.email)
      && (r.value.role.None? <==> Field(v.value, "role").None?)
      && (r.value.role.Some? ==> StrAt(v.value, "role") == r.value.role)
    ensures r.Invalid? ==> r.issues != []
  {
    match v
    case Some(JObject(_)) =>
      var j := v.value;
      var name := ParseString(path + ["name"], Field(j, "name"), 2);
      var phone := ParseString(path + ["phone"], Field(j, "phone"), 10);
      var email := ParseOptional(Field(j, "email"), ParseEmail(isEmail, path + ["email"], Field(j, "email")));
      var role := ParseOptional(Field(j, "role"), ParseString(path + ["role"], Field(j, "role"), 2));
      if name.Valid? && phone.Valid? && email.Valid? && role.Valid? then
        Valid(ContactPerson(name.value, phone.value, email.value, role.value))
      else Invalid(IssuesOf(name) + IssuesOf(phone) + IssuesOf(email) + IssuesOf(role))
    case _ => Invalid([Issue(path, InvalidType)])
  }

  /** `submitKycSchema`: registration number of at least 2 and business
      address of at least 5 code units, and a required contact person. */
  function ParseSubmitKyc(isEmail: string -> bool, j: Json): (r: Parsed<SubmitKycInput>)
    ensures r.Valid? <==> StrMinAt(j, "registrationNumber", 2) && StrMinAt(j, "businessAddress", 5)
                          && ParseContactPerson(isEmail, ["contactDetails"], Field(j, "contactDetails")).Valid?
    ensures r.Valid? ==>
      && StrAt(j, "registrationNumber") == Some(r.value.registrationNumber)
      && StrAt(j, "businessAddress") == Some(r.value.businessAddress)
      && ParseContactPerson(isEmail, ["contactDetails"], Field(j, "contactDetails")) == Valid(r.value.contactDetails)
    ensures Field(j, "contactDetails").None? ==> r.Invalid?
    ensures r.Invalid? ==> r.issues != []
  {
    if !j.JObject? then Invalid([Issue([], InvalidType)])
    else
      var number := ParseString(["registrationNumber"], Field(j, "registrationNumber"), 2);
      var address := ParseString(["businessAddress"], Field(j, "businessAddress"), 5);
      var contact := ParseContactPerson(isEmail, ["contactDetails"], Field(j, "contactDetails"));
      if number.Valid? && address.Valid? && contact.Valid? then
        Valid(SubmitKycInput(number.value, address.value, contact.value))
      else Invalid(IssuesOf(number) + IssuesOf(address) + IssuesOf(contact))
  }
}
