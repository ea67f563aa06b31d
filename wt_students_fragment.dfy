/** The student screen's phone handling and list filtering: Turkish phone
    normalisation to "+90 XXX XXX XXXX", the phone and duplicate rules of the
    student form, the search filter, and the number handed to WhatsApp. */
module WTStudentsFragment {
  import opened Wrappers
  import opened Text
  import opened Sorting
  import opened Data

  /** The number with its country code: a leading 0 is replaced by +90, a
      leading 90 gets a +, anything else gets +90 in front. */
  function WithCountryCode(digits: string): (w: string)
    requires |digits| > 0 && forall i :: 0 <= i < |digits| ==> IsDigit(digits[i])
    ensures StartsWith(w, "+90")
    ensures forall i :: 1 <= i < |w| ==> IsDigit(w[i])
  {
    if StartsWith(digits, "0") then "+90" + digits[1..]
    else if !StartsWith(digits, "+90") && !StartsWith(digits, "90") then "+90" + digits
    else if StartsWith(digits, "90") then "+" + digits
    else digits
  }

  /** The digits of a number with country code are all but its "+". */
  lemma DigitsOfWithCountryCode(digits: string)
    requires |digits| > 0 && forall i :: 0 <= i < |digits| ==> IsDigit(digits[i])
    ensures DigitsOnly(WithCountryCode(digits)) == WithCountryCode(digits)[1..]
  {
    var w := WithCountryCode(digits);
    assert w == "+" + w[1..];
    DigitsOnlyConcat("+", w[1..]);
    DigitsOnlyOfDigits(w[1..]);
  }

  /** "+90 XXX XXX XXXX" from a 13-character "+90XXXXXXXXXX". */
  function Spaced(w: string): (r: string)
    requires |w| == 13
    ensures |r| == 16 && r[3] == ' ' && r[7] == ' ' && r[11] == ' '
    ensures r[..3] == w[..3] && r[4..7] == w[3..6] && r[8..11] == w[6..9] && r[12..] == w[9..]
  {
    w[0..3] + " " + w[3..6] + " " + w[6..9] + " " + w[9..]
  }

  /** formatPhoneNumber. */
  function FormatPhoneNumber(phone: Option<string>): (r: string)
    ensures r == "" <==> phone.None? || DigitsOnly(phone.value) == ""
    ensures r != "" ==> StartsWith(r, "+90")
    ensures r != "" ==>
      var w := WithCountryCode(DigitsOnly(phone.value));
      if |w| == 13 then r == Spaced(w) else r == w
  {
    if phone.None? || phone.value == "" then ""
    else
      var digitsOnly := DigitsOnly(phone.value);
      if digitsOnly == "" then ""
      else
        var withCountryCode := WithCountryCode(digitsOnly);
        if |withCountryCode| != 13 then withCountryCode
        else Spaced(withCountryCode)
  }

  /** The example in the function's documentation. */
  lemma FormatExample()
    ensures FormatPhoneNumber(Some("05306778765")) == "+90 530 677 8765"
  {
    var d := "05306778765";
    assert forall i | 0 <= i < |d| :: IsDigit(d[i]);
    DigitsOnlyOfDigits(d);
    ExampleWithCountryCode();
    ExampleSpaced();
  }

  lemma ExampleWithCountryCode()
    ensures WithCountryCode("05306778765") == "+905306778765"
  {
    var d := "05306778765";
    assert forall i | 0 <= i < |d| :: IsDigit(d[i]);
    assert StartsWith(d, "0");
    assert WithCountryCode(d) == "+90" + d[1..];
    assert d[1..] == "5306778765";
  }

  lemma ExampleSpaced()
    ensures Spaced("+905306778765") == "+90 530 677 8765"
  {
    var w := "+905306778765";
    assert w[0..3] == "+90" && w[3..6] == "530" && w[6..9] == "677" && w[9..] == "8765";
  }

  lemma SkipSpace(a: string, b: string)
    ensures DigitsOnly(a + " " + b) == DigitsOnly(a) + DigitsOnly(b)
  {
    DigitsOnlyConcat(a + " ", b);
    DigitsOnlyConcat(a, " ");
  }

  /** The digits of the spaced form are those of the unspaced one. */
  lemma DigitsOfSpaced(w: string)
    requires |w| == 13
    ensures DigitsOnly(Spaced(w)) == DigitsOnly(w)
  {
    var a, b, c, d := w[0..3], w[3..6], w[6..9], w[9..];
    assert Spaced(w) == ((a + " " + b) + " " + c) + " " + d;
    SkipSpace((a + " " + b) + " " + c, d);
    SkipSpace(a + " " + b, c);
    SkipSpace(a, b);
    assert w == ((a + b) + c) + d;
    DigitsOnlyConcat((a + b) + c, d);
    DigitsOnlyConcat(a + b, c);
    DigitsOnlyConcat(a, b);
  }

  /** Re-formatting a formatted number changes nothing, which is what lets the
      duplicate check compare a stored formatted number with freshly formatted input. */
  lemma FormatIdempotent(phone: Option<string>)
    ensures FormatPhoneNumber(Some(FormatPhoneNumber(phone))) == FormatPhoneNumber(phone)
  {
    var r := FormatPhoneNumber(phone);
    if r != "" {
      var w := WithCountryCode(DigitsOnly(phone.value));
      if |w| == 13 {
        DigitsOfSpaced(w);
      }
      DigitsOfWithCountryCode(DigitsOnly(phone.value));
      assert DigitsOnly(r) == w[1..];
      assert StartsWith(w[1..], "90");
      assert WithCountryCode(w[1..]) == w;
    }
  }

  /** The phone rule of validateStudentForm: 10 digits, or 11 starting with 0. */
  predicate PhoneAccepted(phone: string) {
    var digitsOnly := DigitsOnly(phone);
    |digitsOnly| == 10 || (StartsWith(digitsOnly, "0") && |digitsOnly| == 11)
  }

  /** An accepted phone formats to the full spaced "+90 XXX XXX XXXX" unless it
      is a 10-digit number that already starts with 0 or 90. */
  lemma AcceptedPhoneFormatsFully(phone: string)
    requires PhoneAccepted(phone)
    ensures var d := DigitsOnly(phone);
      |FormatPhoneNumber(Some(phone))| == 16
      <==> !(|d| == 10 && (StartsWith(d, "0") || StartsWith(d, "90")))
  {
    var d := DigitsOnly(phone);
    var w := WithCountryCode(d);
    if StartsWith(d, "0") {
      assert |w| == |d| + 2;
    } else if StartsWith(d, "90") {
      assert |w| == |d| + 1;
    } else {
      assert |w| == |d| + 3;
    }
  }

  datatype FormError = Required | InvalidPhone | DuplicateName | DuplicatePhone

  predicate NameTaken(students: seq<WTStudent>, name: string, except: Option<int>) {
    exists i :: 0 <= i < |students| && students[i].name == name
      && (except.None? || students[i].id != except.value)
  }

  predicate PhoneTaken(students: seq<WTStudent>, formatted: string, except: Option<int>) {
    exists i :: 0 <= i < |students| && FormatPhoneNumber(students[i].phoneNumber) == formatted
      && (except.None? || students[i].id != except.value)
  }

  /** The first phase of validateStudentForm: both fields filled and the
      phone of an accepted shape. The duplicate checks run only after it. */
  predicate FieldsPass(nameText: string, phoneText: string) {
    Trim(nameText) != "" && Trim(phoneText) != "" && PhoneAccepted(Trim(phoneText))
  }

  /** The duplicate-name check: any student with the name when adding; when
      editing, only a changed name, against the other students. */
  predicate NameClash(students: seq<WTStudent>, name: string, editing: Option<WTStudent>) {
    if editing.None? then NameTaken(students, name, None)
    else editing.value.name != name && NameTaken(students, name, Some(editing.value.id))
  }

  /** The duplicate-phone check, on formatted numbers: any student when adding;
      when editing, only a changed number, against the other students. */
  predicate PhoneClash(students: seq<WTStudent>, phone: string, editing: Option<WTStudent>) {
    var formatted := FormatPhoneNumber(Some(phone));
    if editing.None? then PhoneTaken(students, formatted, None)
    else
      FormatPhoneNumber(Some(editing.value.phoneNumber.GetOr(""))) != formatted
      && PhoneTaken(students, formatted, Some(editing.value.id))
  }

  /** validateStudentForm: the name and phone errors and the verdict. */
  method ValidateStudentForm(nameText: string, phoneText: string, students: seq<WTStudent>,
                             editing: Option<WTStudent>)
    returns (isValid: bool, nameError: Option<FormError>, phoneError: Option<FormError>)
    ensures !isValid <==> nameError.Some? || phoneError.Some?
    ensures Trim(nameText) == "" ==> nameError == Some(Required)
    ensures Trim(phoneText) == "" ==> phoneError == Some(Required)
    ensures Trim(phoneText) != "" && !PhoneAccepted(Trim(phoneText)) ==> phoneError == Some(InvalidPhone)
    ensures nameError ==
      if Trim(nameText) == "" then Some(Required)
      else if FieldsPass(nameText, phoneText) && NameClash(students, Trim(nameText), editing) then Some(DuplicateName)
      else None
    ensures phoneError ==
      if Trim(phoneText) == "" then Some(Required)
      else if !PhoneAccepted(Trim(phoneText)) then Some(InvalidPhone)
      else if FieldsPass(nameText, phoneText) && PhoneClash(students, Trim(phoneText), editing) then Some(DuplicatePhone)
      else None
    ensures isValid <==>
      Trim(nameText) != "" && Trim(phoneText) != "" && PhoneAccepted(Trim(phoneText))
      && (editing.None? ==>
            !NameTaken(students, Trim(nameText), None)
            && !PhoneTaken(students, FormatPhoneNumber(Some(Trim(phoneText))), None))
      && (editing.Some? ==>
            (editing.value.name != Trim(nameText) ==>
               !NameTaken(students, Trim(nameText), Some(editing.value.id)))
            && (FormatPhoneNumber(Some(editing.value.phoneNumber.GetOr(""))) != FormatPhoneNumber(Some(Trim(phoneText))) ==>
               !PhoneTaken(students, FormatPhoneNumber(Some(Trim(phoneText))), Some(editing.value.id))))
  {
    isValid := true;
    nameError := None;
    phoneError := None;
    var name := Trim(nameText);
    if name == "" {
      nameError := Some(Required);
      isValid := false;
    }
    var phone := Trim(phoneText);
    if phone == "" {
      phoneError := Some(Required);
      isValid := false;
    } else if !PhoneAccepted(phone) {
      phoneError := Some(InvalidPhone);
      isValid := false;
    }
    if isValid && editing.None? {
      var formattedPhone := FormatPhoneNumber(Some(phone));
      if NameTaken(students, name, None) {
        nameError := Some(DuplicateName);
        isValid := false;
      }
      if PhoneTaken(students, formattedPhone, None) {
        phoneError := Some(DuplicatePhone);
        isValid := false;
      }
    } else if isValid && editing.Some? {
      var current := editing.value;
      if current.name != name {
        if NameTaken(students, name, Some(current.id)) {
          nameError := Some(DuplicateName);
          isValid := false;
        }
      }
      var formattedPhone := FormatPhoneNumber(Some(phone));
      var formattedEditingPhone := FormatPhoneNumber(Some(current.phoneNumber.GetOr("")));
      if formattedEditingPhone != formattedPhone {
        if PhoneTaken(students, formattedPhone, Some(current.id)) {
          phoneError := Some(DuplicatePhone);
          isValid := false;
        }
      }
    }
  }

  /** The search predicate: name, phone or e-mail contains the query, ignoring case. */
  predicate MatchesQuery(s: WTStudent, query: string) {
    ContainsIgnoreCase(s.name, query)
    || (s.phoneNumber.Some? && ContainsIgnoreCase(s.phoneNumber.value, query))
    || (s.email.Some? && ContainsIgnoreCase(s.email.value, query))
  }

  /** Alphabetical order of the lower-cased names. */
  function ByLowerName(a: WTStudent, b: WTStudent): bool {
    StrLe(ToLower(a.name), ToLower(b.name))
  }

  lemma ByLowerNameTotalPreorder()
    ensures TotalPreorder(ByLowerName)
  {
    forall a: WTStudent, b: WTStudent ensures ByLowerName(a, b) || ByLowerName(b, a) {
      StrLeTotal(ToLower(a.name), ToLower(b.name));
    }
    forall a: WTStudent, b: WTStudent, c: WTStudent | ByLowerName(a, b) && ByLowerName(b, c)
      ensures ByLowerName(a, c)
    {
      StrLeTransitive(ToLower(a.name), ToLower(b.name), ToLower(c.name));
    }
  }

  function StudentId(s: WTStudent): int { s.id }

  /** filterStudents: one student per id, those matching the query (all of them
      for a blank query), sorted by lower-cased name. */
  function FilterStudents(students: seq<WTStudent>, query: string): (r: seq<WTStudent>)
    ensures DistinctKeys(r, StudentId)
    ensures Sorted(r, ByLowerName)
    ensures IsBlank(query) ==> multiset(r) == multiset(DistinctBy(students, StudentId))
    ensures !IsBlank(query) ==> multiset(r) == multiset(Filter(DistinctBy(students, StudentId), s => MatchesQuery(s, query)))
  {
    var uniqueStudents := DistinctBy(students, StudentId);
    var filteredStudents :=
      if IsBlank(query) then uniqueStudents
      else Filter(uniqueStudents, s => MatchesQuery(s, query));
    ByLowerNameTotalPreorder();
    SortBySorted(filteredStudents, ByLowerName);
    FilterDistinctKeys(uniqueStudents, s => MatchesQuery(s, query), StudentId);
    SortByDistinctKeys(filteredStudents, ByLowerName, StudentId);
    SortBy(filteredStudents, ByLowerName)
  }

  /** The number used for the WhatsApp link; None when there is no number. */
  function WhatsAppNumber(phone: Option<string>): (r: Option<string>)
    ensures r.None? <==> phone.None? || phone.value == ""
    ensures r.Some? ==> StartsWith(r.value, "90")
    ensures r.Some? ==> forall i :: 0 <= i < |r.value| ==> IsDigit(r.value[i]) || r.value[i] == '+'
    // The country code 90 followed by the national number: the digits with a
    // leading "+90", "90" (twelve or more characters) or "0" dropped.
    ensures phone.Some? && phone.value != "" ==>
      var d := DigitsAndPlus(phone.value);
      && (StartsWith(d, "+90") ==> r.value == "90" + d[3..])
      && (!StartsWith(d, "+90") && StartsWith(d, "90") && |d| >= 12 ==> r.value == "90" + d[2..])
      && (!StartsWith(d, "+90") && !(StartsWith(d, "90") && |d| >= 12) && |d| == 10 ==> r.value == "90" + d)
      && (!StartsWith(d, "+90") && !(StartsWith(d, "90") && |d| >= 12) && |d| != 10 && StartsWith(d, "0") ==>
            r.value == "90" + d[1..])
      && (!StartsWith(d, "+90") && !(StartsWith(d, "90") && |d| >= 12) && |d| != 10 && !StartsWith(d, "0") ==>
            r.value == "90" + d)
  {
    if phone.None? || phone.value == "" then None
    else
      var digitsOnly := DigitsAndPlus(phone.value);
      if StartsWith(digitsOnly, "+90") then
        assert digitsOnly[1..] == digitsOnly[1..3] + digitsOnly[3..];
        Some(digitsOnly[1..])
      else if StartsWith(digitsOnly, "90") && |digitsOnly| >= 12 then
        assert digitsOnly == digitsOnly[..2] + digitsOnly[2..];
        Some(digitsOnly)
      else if |digitsOnly| == 10 then Some("90" + digitsOnly)
      else if StartsWith(digitsOnly, "0") then Some("90" + digitsOnly[1..])
      else Some("90" + digitsOnly)
  }

  /** A link number of twelve or more characters is taken as it is. */
  lemma WhatsAppNumberStable(phone: Option<string>)
    requires WhatsAppNumber(phone).Some? && |WhatsAppNumber(phone).value| >= 12
    ensures WhatsAppNumber(WhatsAppNumber(phone)) == WhatsAppNumber(phone)
  {
    var n := WhatsAppNumber(phone).value;
    DigitsAndPlusKeeps(n);
    assert n[0] == '9';
  }
}
