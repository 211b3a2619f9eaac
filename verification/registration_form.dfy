/**
 * The package registration form: the field rules of its schema, the
 * WhatsApp confirmation message (as the list of its lines, joined with
 * newlines), and the submit handler's login guard and null-normalisation.
 */
module RegistrationForm {
  import opened Wrappers
  import opened Text
  import opened Seqs

  /** The form's values; the optional fields are `None` when absent. */
  datatype RegistrationData = RegistrationData(
    fullName: string,
    email: string,
    phone: string,
    nik: string,
    birthPlace: string,
    birthDate: string,
    gender: string,
    address: string,
    passportNumber: Option<string>,
    emergencyContact: string,
    emergencyPhone: string,
    roomType: string,
    notes: Option<string>)

  datatype Field =
    | FullName | Email | Phone | Nik | BirthPlace | BirthDate | Gender | Address
    | PassportNumber | EmergencyContact | EmergencyPhone | RoomType | Notes

  const AllFields: seq<Field> := [
    FullName, Email, Phone, Nik, BirthPlace, BirthDate, Gender, Address,
    PassportNumber, EmergencyContact, EmergencyPhone, RoomType, Notes
  ]

  /** The regex class `[a-zA-Z\s.'-]`. */
  predicate NameChar(c: char) {
    IsAsciiLetter(c) || IsJsWhitespace(c) || c == '.' || c == '\'' || c == '-'
  }

  /** The regex class `[0-9+\-\s]`. */
  predicate PhoneChar(c: char) {
    IsDigit(c) || c == '+' || c == '-' || IsJsWhitespace(c)
  }

  predicate LengthIn(s: string, lo: nat, hi: nat) {
    lo <= |s| <= hi
  }

  /**
   * The anchored pattern `^[class]+$`: a character of the class, then either
   * the end of the string or the pattern again.
   */
  predicate MatchesClassPlus(s: string, charClass: char -> bool)
    decreases |s|
  {
    |s| >= 1 && charClass(s[0]) && (|s| == 1 || MatchesClassPlus(s[1..], charClass))
  }

  /** The pattern matches exactly the non-empty strings made only of class characters. */
  lemma {:induction false} ClassPlusIff(s: string, charClass: char -> bool)
    ensures MatchesClassPlus(s, charClass) <==> |s| >= 1 && forall i :: 0 <= i < |s| ==> charClass(s[i])
    decreases |s|
  {
    if |s| > 1 {
      ClassPlusIff(s[1..], charClass);
      assert forall i :: 1 <= i < |s| ==> s[i] == s[1..][i - 1];
    }
  }

  /** `fullName`: 3 to 100 characters, all matching `[a-zA-Z\s.'-]`. */
  predicate ValidFullName(s: string) {
    LengthIn(s, 3, 100) && MatchesClassPlus(s, NameChar)
  }

  /** `phone` and `emergencyPhone`: 10 to 15 characters, all matching `[0-9+\-\s]`. */
  predicate ValidPhone(s: string) {
    LengthIn(s, 10, 15) && MatchesClassPlus(s, PhoneChar)
  }

  /** `nik`: exactly 16 characters, all matching `[0-9]`. */
  predicate ValidNik(s: string) {
    |s| == 16 && MatchesClassPlus(s, IsDigit)
  }

  /** A full name is accepted exactly when it has 3 to 100 characters, each a letter, whitespace, `.`, `'` or `-`. */
  lemma FullNameRule(s: string)
    ensures ValidFullName(s) <==> 3 <= |s| <= 100 && forall i :: 0 <= i < |s| ==> NameChar(s[i])
  {
    ClassPlusIff(s, NameChar);
  }

  /** A phone number is accepted exactly when it has 10 to 15 characters, each a digit, `+`, `-` or whitespace. */
  lemma PhoneRule(s: string)
    ensures ValidPhone(s) <==> 10 <= |s| <= 15 && forall i :: 0 <= i < |s| ==> PhoneChar(s[i])
  {
    ClassPlusIff(s, PhoneChar);
  }

  /** A NIK is accepted exactly when it is 16 decimal digits. */
  lemma NikRule(s: string)
    ensures ValidNik(s) <==> |s| == 16 && forall i :: 0 <= i < |s| ==> IsDigit(s[i])
  {
    ClassPlusIff(s, IsDigit);
  }

  /** Absent or empty is accepted; otherwise 6 to 20 characters. */
  predicate ValidPassport(p: Option<string>) {
    p.None? || p.value == "" || LengthIn(p.value, 6, 20)
  }

  predicate ValidNotes(n: Option<string>) {
    n.None? || |n.value| <= 500
  }

  /**
   * Whether `field` passes its rule. `isEmail` is the email-format check of
   * the validation library, which this model takes as given.
   */
  predicate FieldValid(d: RegistrationData, field: Field, isEmail: string -> bool) {
    match field
    case FullName => ValidFullName(d.fullName)
    case Email => isEmail(d.email) && |d.email| <= 255
    case Phone => ValidPhone(d.phone)
    case Nik => ValidNik(d.nik)
    case BirthPlace => LengthIn(d.birthPlace, 2, 50)
    case BirthDate => |d.birthDate| >= 1
    case Gender => d.gender in {"male", "female"}
    case Address => LengthIn(d.address, 10, 300)
    case PassportNumber => ValidPassport(d.passportNumber)
    case EmergencyContact => LengthIn(d.emergencyContact, 3, 100)
    case EmergencyPhone => ValidPhone(d.emergencyPhone)
    case RoomType => d.roomType in {"quad", "triple", "double"}
    case Notes => ValidNotes(d.notes)
  }

  /** The fields reported as invalid, in form order; the form submits only when there are none. */
  function Errors(d: RegistrationData, isEmail: string -> bool): (errs: seq<Field>)
    ensures forall f :: f in errs <==> !FieldValid(d, f, isEmail)
  {
    var p := (f: Field) => !FieldValid(d, f, isEmail);
    var errs := Filter(AllFields, p);
    FilterMembers(AllFields, p);
    AllFieldsListed();
    errs
  }

  /** The submit button is accepted exactly when every field passes. */
  lemma NoErrorsIffValid(d: RegistrationData, isEmail: string -> bool)
    ensures |Errors(d, isEmail)| == 0 <==> forall f :: FieldValid(d, f, isEmail)
  {
    if |Errors(d, isEmail)| != 0 {
      assert Errors(d, isEmail)[0] in Errors(d, isEmail);
    }
  }

  lemma FilterMembers(fs: seq<Field>, p: Field -> bool)
    ensures forall f :: f in Filter(fs, p) <==> f in fs && p(f)
  {
    forall f | f in fs && p(f)
      ensures f in Filter(fs, p)
    {
      var i :| 0 <= i < |fs| && fs[i] == f;
    }
  }

  lemma AllFieldsListed()
    ensures forall f: Field :: f in AllFields
  {
    forall f: Field
      ensures f in AllFields
    {
      match f
      case FullName => assert AllFields[0] == f;
      case Email => assert AllFields[1] == f;
      case Phone => assert AllFields[2] == f;
      case Nik => assert AllFields[3] == f;
      case BirthPlace => assert AllFields[4] == f;
      case BirthDate => assert AllFields[5] == f;
      case Gender => assert AllFields[6] == f;
      case Address => assert AllFields[7] == f;
      case PassportNumber => assert AllFields[8] == f;
      case EmergencyContact => assert AllFields[9] == f;
      case EmergencyPhone => assert AllFields[10] == f;
      case RoomType => assert AllFields[11] == f;
      case Notes => assert AllFields[12] == f;
    }
  }

  function RoomTypeLabel(roomType: string): (l: Option<string>)
    ensures l.Some? <==> roomType in {"quad", "triple", "double"}
  {
    if roomType == "quad" then Some("Quad (4 orang)")
    else if roomType == "triple" then Some("Triple (3 orang)")
    else if roomType == "double" then Some("Double (2 orang)")
    else None
  }

  /** "male" reads "Laki-laki"; anything else reads "Perempuan". */
  function GenderLabel(gender: string): (l: string)
    ensures l == "Laki-laki" <==> gender == "male"
    ensures l == "Perempuan" <==> gender != "male"
  {
    if gender == "male" then "Laki-laki" else "Perempuan"
  }

  /** JavaScript truthiness of an optional text field. */
  predicate Present(s: Option<string>) {
    s.Some? && s.value != ""
  }

  const PassportLine: nat := 12
  const NotesLine: nat := 19

  /** The passport line: the number when one is given, else an empty line. */
  function PassportText(p: Option<string>): (line: string)
    ensures line != "" <==> Present(p)
  {
    if Present(p) then "- No. Paspor: " + p.value else ""
  }

  /** The notes line: a blank line and the notes when given, else an empty line. */
  function NotesText(n: Option<string>): (line: string)
    ensures line != "" <==> Present(n)
  {
    if Present(n) then "\n*CATATAN:* " + n.value else ""
  }

  /** The lines before the passport line. */
  function PilgrimLines(d: RegistrationData, packageTitle: string): (lines: seq<string>)
    ensures |lines| == PassportLine
  {
    [
      "Assalamualaikum, saya ingin konfirmasi pendaftaran:",
      "",
      "*PAKET:* " + packageTitle,
      "",
      "*DATA JAMAAH:*",
      "- Nama: " + d.fullName,
      "- NIK: " + d.nik,
      "- Tempat/Tgl Lahir: " + d.birthPlace + ", " + d.birthDate,
      "- Jenis Kelamin: " + GenderLabel(d.gender),
      "- No. HP: " + d.phone,
      "- Email: " + d.email,
      "- Alamat: " + d.address
    ]
  }

  /** The lines between the passport line and the notes line. */
  function ContactLines(d: RegistrationData): (lines: seq<string>)
    ensures |lines| == NotesLine - PassportLine - 1
  {
    [
      "",
      "*KONTAK DARURAT:*",
      "- Nama: " + d.emergencyContact,
      "- No. HP: " + d.emergencyPhone,
      "",
      "*TIPE KAMAR:* " + RoomTypeLabel(d.roomType).GetOr("undefined")
    ]
  }

  const ClosingLines: seq<string> := ["", "Mohon informasi selanjutnya untuk proses pembayaran. Terima kasih."]

  /** The lines of the confirmation message; a missing room label prints as "undefined". */
  function MessageLines(d: RegistrationData, packageTitle: string): (lines: seq<string>)
    ensures |lines| == 22
    ensures lines[PassportLine] != "" <==> Present(d.passportNumber)
    ensures lines[NotesLine] != "" <==> Present(d.notes)
    ensures lines[8] == "- Jenis Kelamin: " + GenderLabel(d.gender)
  {
    var head := PilgrimLines(d, packageTitle);
    var lines := head + [PassportText(d.passportNumber)] + ContactLines(d) + [NotesText(d.notes)] + ClosingLines;
    assert lines[8] == head[8];
    lines
  }

  /** The confirmation message text. */
  function Message(d: RegistrationData, packageTitle: string): string {
    Join(MessageLines(d, packageTitle), '\n')
  }

  /** The passport number affects its own line of the message and no other. */
  lemma PassportOnlyInItsLine(d: RegistrationData, passport: Option<string>, packageTitle: string)
    ensures var a, b := MessageLines(d, packageTitle), MessageLines(d.(passportNumber := passport), packageTitle);
      forall i :: 0 <= i < 22 && i != PassportLine ==> a[i] == b[i]
  {
  }

  /** The notes affect their own line of the message and no other. */
  lemma NotesOnlyInTheirLine(d: RegistrationData, notes: Option<string>, packageTitle: string)
    ensures var a, b := MessageLines(d, packageTitle), MessageLines(d.(notes := notes), packageTitle);
      forall i :: 0 <= i < 22 && i != NotesLine ==> a[i] == b[i]
  {
  }

  /** The row inserted into `registrations`. */
  datatype RegistrationRow = RegistrationRow(
    userId: string,
    packageId: int,
    packageName: string,
    fullName: string,
    email: string,
    phone: string,
    nik: string,
    birthPlace: string,
    birthDate: string,
    gender: string,
    address: string,
    passportNumber: Option<string>,
    emergencyContact: string,
    emergencyPhone: string,
    roomType: string,
    notes: Option<string>)

  /** `x || null` on an optional text field. */
  function NullIfBlank(s: Option<string>): (r: Option<string>)
    ensures r.None? <==> !Present(s)
    ensures r.Some? ==> r == s
  {
    if Present(s) then s else None
  }

  /**
   * The row the form inserts: the signed-in user, the package, the form's
   * fields as entered, and null for a blank passport number or notes.
   */
  function RowFor(userId: string, packageId: int, packageTitle: string, d: RegistrationData): (row: RegistrationRow)
    ensures row.userId == userId && row.packageId == packageId && row.packageName == packageTitle
    ensures row.fullName == d.fullName && row.email == d.email && row.phone == d.phone && row.nik == d.nik
    ensures row.birthPlace == d.birthPlace && row.birthDate == d.birthDate && row.gender == d.gender
    ensures row.address == d.address && row.emergencyContact == d.emergencyContact
    ensures row.emergencyPhone == d.emergencyPhone && row.roomType == d.roomType
    ensures row.passportNumber.None? <==> !Present(d.passportNumber)
    ensures row.notes.None? <==> !Present(d.notes)
    ensures row.passportNumber.Some? ==> row.passportNumber == d.passportNumber
    ensures row.notes.Some? ==> row.notes == d.notes
  {
    RegistrationRow(userId, packageId, packageTitle, d.fullName, d.email, d.phone, d.nik, d.birthPlace,
                    d.birthDate, d.gender, d.address, NullIfBlank(d.passportNumber), d.emergencyContact,
                    d.emergencyPhone, d.roomType, NullIfBlank(d.notes))
  }

  /** The form data a stored row holds. */
  function DataOf(row: RegistrationRow): RegistrationData {
    RegistrationData(row.fullName, row.email, row.phone, row.nik, row.birthPlace, row.birthDate, row.gender,
                     row.address, row.passportNumber, row.emergencyContact, row.emergencyPhone, row.roomType, row.notes)
  }

  /**
   * The inserted row gives back exactly the submitted data, unless an
   * optional field was present but blank (then it is stored as null).
   */
  lemma RowForKeepsData(userId: string, packageId: int, packageTitle: string, d: RegistrationData)
    ensures DataOf(RowFor(userId, packageId, packageTitle, d)) == d <==>
      (d.passportNumber.None? || Present(d.passportNumber)) && (d.notes.None? || Present(d.notes))
  {
  }

  /**
   * What `onSubmit` does: ask to log in (nothing written), or insert the row;
   * the message is opened only when the insert succeeded.
   */
  datatype SubmitResult =
    | LoginRequired
    | InsertFailed(row: RegistrationRow)
    | Registered(row: RegistrationRow, message: string)

  /** `onSubmit(data)`; `insertSucceeds` is the store's answer to the insert. */
  function OnSubmit(user: Option<string>, packageId: int, packageTitle: string, d: RegistrationData, insertSucceeds: bool): (r: SubmitResult)
    ensures r.LoginRequired? <==> user.None?
    ensures !r.LoginRequired? ==> r.row == RowFor(user.value, packageId, packageTitle, d)
    ensures !r.LoginRequired? ==> r.row.userId == user.value && r.row.packageId == packageId
    ensures !r.LoginRequired? ==> (r.row.passportNumber.None? <==> !Present(d.passportNumber))
    ensures !r.LoginRequired? ==> (r.row.notes.None? <==> !Present(d.notes))
    ensures r.Registered? <==> user.Some? && insertSucceeds
    ensures r.Registered? ==> r.message == Message(d, packageTitle)
  {
    match user
    case None => LoginRequired
    case Some(uid) =>
      var row := RowFor(uid, packageId, packageTitle, d);
      if insertSucceeds then Registered(row, Message(d, packageTitle)) else InsertFailed(row)
  }
}
