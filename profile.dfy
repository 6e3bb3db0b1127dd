/** The medical-profile editor: the allergy, medication, condition and
    emergency-contact lists with their add, remove and per-field edit
    handlers, and the `cn` class-name helper. */
module Profile {
  import opened Text
  import opened Seqs

  datatype Allergy = Allergy(id: string, allergen: string, severity: string, reaction: string)
  datatype Medication = Medication(id: string, name: string, dosage: string, frequency: string)
  datatype EmergencyContact = EmergencyContact(
    id: string, name: string, relationship: string, phone: string, email: string)

  /** The blank entries the three "Add" buttons append. */
  function NewAllergy(id: string): Allergy { Allergy(id, "", "mild", "") }
  function NewMedication(id: string): Medication { Medication(id, "", "", "") }
  function NewContact(id: string): EmergencyContact { EmergencyContact(id, "", "", "", "") }

  function AllergyId(a: Allergy): string { a.id }
  function MedicationId(m: Medication): string { m.id }
  function ContactId(c: EmergencyContact): string { c.id }

  // ----- Removal by id, shared by the three record lists -----

  /** The callback `x => x.id !== id`. */
  function KeyIsNot<T>(key: T -> string, id: string): T -> bool
  {
    x => key(x) != id
  }

  /** `list.filter(x => x.id !== id)`: every entry with that id is gone, the
      others stay in order, each with all its copies. */
  function RemoveById<T(!new)>(list: seq<T>, key: T -> string, id: string): (r: seq<T>)
    ensures Subsequence(r, list)
    ensures forall x :: x in r <==> x in list && key(x) != id
    ensures forall x :: multiset(r)[x] == if key(x) != id then multiset(list)[x] else 0
  {
    Filter(KeyIsNot(key, id), list)
  }

  /** Removing an id no entry has leaves the list as it was. */
  lemma RemoveAbsentIdKeepsAll<T(!new)>(list: seq<T>, key: T -> string, id: string)
    requires forall x :: x in list ==> key(x) != id
    ensures RemoveById(list, key, id) == list
  {
    FilterKeepsAll(KeyIsNot(key, id), list);
  }

  /** Appending an entry under a fresh id and removing that id restores the
      list. */
  lemma RemoveAfterAddRestores<T(!new)>(list: seq<T>, key: T -> string, x: T)
    requires forall y :: y in list ==> key(y) != key(x)
    ensures RemoveById(list + [x], key, key(x)) == list
  {
    var p := KeyIsNot(key, key(x));
    FilterAppend(p, list, [x]);
    FilterKeepsAll(p, list);
    assert Filter(p, [x]) == [] by {
      assert [x][1..] == [];
    }
  }

  // ----- Per-field edits -----

  datatype AllergyField = Allergen | Severity | Reaction
  datatype MedicationField = MedicationName | Dosage | Frequency
  datatype ContactField = ContactName | Relationship | Phone | ContactEmail

  function AllergyFieldOf(a: Allergy, f: AllergyField): string
  {
    match f
    case Allergen => a.allergen
    case Severity => a.severity
    case Reaction => a.reaction
  }

  /** `updated[index].<field> = value` on one allergy: that field reads back
      the value; the id and the other fields are kept. */
  function WithAllergyField(a: Allergy, f: AllergyField, value: string): (r: Allergy)
    ensures r.id == a.id && AllergyFieldOf(r, f) == value
    ensures forall g :: g != f ==> AllergyFieldOf(r, g) == AllergyFieldOf(a, g)
  {
    match f
    case Allergen => a.(allergen := value)
    case Severity => a.(severity := value)
    case Reaction => a.(reaction := value)
  }

  function MedicationFieldOf(m: Medication, f: MedicationField): string
  {
    match f
    case MedicationName => m.name
    case Dosage => m.dosage
    case Frequency => m.frequency
  }

  /** `updated[index].<field> = value` on one medication. */
  function WithMedicationField(m: Medication, f: MedicationField, value: string): (r: Medication)
    ensures r.id == m.id && MedicationFieldOf(r, f) == value
    ensures forall g :: g != f ==> MedicationFieldOf(r, g) == MedicationFieldOf(m, g)
  {
    match f
    case MedicationName => m.(name := value)
    case Dosage => m.(dosage := value)
    case Frequency => m.(frequency := value)
  }

  function ContactFieldOf(c: EmergencyContact, f: ContactField): string
  {
    match f
    case ContactName => c.name
    case Relationship => c.relationship
    case Phone => c.phone
    case ContactEmail => c.email
  }

  /** `updated[index].<field> = value` on one emergency contact. */
  function WithContactField(c: EmergencyContact, f: ContactField, value: string): (r: EmergencyContact)
    ensures r.id == c.id && ContactFieldOf(r, f) == value
    ensures forall g :: g != f ==> ContactFieldOf(r, g) == ContactFieldOf(c, g)
  {
    match f
    case ContactName => c.(name := value)
    case Relationship => c.(relationship := value)
    case Phone => c.(phone := value)
    case ContactEmail => c.(email := value)
  }

  // ----- Conditions -----

  /** The callback `c => c !== condition`. */
  function IsNot(condition: string): string -> bool
  {
    c => c != condition
  }

  /** `conditions.filter(c => c !== condition)`: every copy of the text goes;
      every other text keeps all its copies, in order. */
  function WithoutCondition(conditions: seq<string>, condition: string): (r: seq<string>)
    ensures condition !in r
    ensures forall c :: c != condition ==> (c in r <==> c in conditions)
    ensures forall c :: c != condition ==> multiset(r)[c] == multiset(conditions)[c]
    ensures Subsequence(r, conditions)
  {
    Filter(IsNot(condition), conditions)
  }

  /** Conditions may repeat, and one removal takes out every copy: a text
      added twice to a list without it is removed in one step. */
  lemma RemoveConditionTakesAllCopies(conditions: seq<string>, condition: string)
    requires condition !in conditions
    ensures WithoutCondition(conditions + [condition] + [condition], condition) == conditions
  {
    var p := IsNot(condition);
    FilterAppend(p, conditions + [condition], [condition]);
    FilterAppend(p, conditions, [condition]);
    FilterKeepsAll(p, conditions);
    assert Filter(p, [condition]) == [] by {
      assert [condition][1..] == [];
    }
  }

  class ProfilePage {
    var allergies: seq<Allergy>
    var medications: seq<Medication>
    var conditions: seq<string>
    var newCondition: string
    var emergencyContacts: seq<EmergencyContact>

    /** The page's initial mock data. */
    constructor ()
      ensures allergies == [Allergy("1", "Penicillin", "severe", "Anaphylaxis")]
      ensures medications == [Medication("1", "Lisinopril", "10mg", "Once daily")]
      ensures conditions == ["Hypertension", "Type 2 Diabetes"] && newCondition == ""
      ensures emergencyContacts ==
        [EmergencyContact("1", "Jane Doe", "Spouse", "+1 (555) 123-4567", "jane.doe@example.com")]
    {
      allergies := [Allergy("1", "Penicillin", "severe", "Anaphylaxis")];
      medications := [Medication("1", "Lisinopril", "10mg", "Once daily")];
      conditions := ["Hypertension", "Type 2 Diabetes"];
      newCondition := "";
      emergencyContacts := [EmergencyContact("1", "Jane Doe", "Spouse", "+1 (555) 123-4567", "jane.doe@example.com")];
    }

    /** `addAllergy`, with the new id given. */
    method AddAllergy(newId: string)
      modifies this`allergies
      ensures allergies == old(allergies) + [NewAllergy(newId)]
    {
      allergies := allergies + [NewAllergy(newId)];
    }

    /** `removeAllergy`. */
    method RemoveAllergy(id: string)
      modifies this`allergies
      ensures allergies == RemoveById(old(allergies), AllergyId, id)
    {
      allergies := RemoveById(allergies, AllergyId, id);
    }

    /** One of the allergy inputs at row `index`. */
    method EditAllergy(index: nat, field: AllergyField, value: string)
      requires index < |allergies|
      modifies this`allergies
      ensures |allergies| == |old(allergies)|
      ensures allergies[index] == WithAllergyField(old(allergies)[index], field, value)
      ensures forall k :: 0 <= k < |allergies| && k != index ==> allergies[k] == old(allergies)[k]
    {
      allergies := allergies[index := WithAllergyField(allergies[index], field, value)];
    }

    /** `addMedication`, with the new id given. */
    method AddMedication(newId: string)
      modifies this`medications
      ensures medications == old(medications) + [NewMedication(newId)]
    {
      medications := medications + [NewMedication(newId)];
    }

    /** `removeMedication`. */
    method RemoveMedication(id: string)
      modifies this`medications
      ensures medications == RemoveById(old(medications), MedicationId, id)
    {
      medications := RemoveById(medications, MedicationId, id);
    }

    /** One of the medication inputs at row `index`. */
    method EditMedication(index: nat, field: MedicationField, value: string)
      requires index < |medications|
      modifies this`medications
      ensures |medications| == |old(medications)|
      ensures medications[index] == WithMedicationField(old(medications)[index], field, value)
      ensures forall k :: 0 <= k < |medications| && k != index ==> medications[k] == old(medications)[k]
    {
      medications := medications[index := WithMedicationField(medications[index], field, value)];
    }

    /** The condition input's change handler. */
    method SetNewCondition(value: string)
      modifies this`newCondition
      ensures newCondition == value
    {
      newCondition := value;
    }

    /** `addCondition`: a non-blank input is appended trimmed and the input is
        cleared; a blank one changes nothing. */
    method AddCondition()
      modifies this`conditions, this`newCondition
      ensures IsBlank(old(newCondition)) ==>
        conditions == old(conditions) && newCondition == old(newCondition)
      ensures !IsBlank(old(newCondition)) ==>
        conditions == old(conditions) + [Trim(old(newCondition))] && newCondition == ""
      ensures !IsBlank(old(newCondition)) ==>
        var added := conditions[|conditions| - 1];
        added != [] && !IsSpace(added[0]) && !IsSpace(added[|added| - 1])
    {
      var trimmed := Trim(newCondition);
      if trimmed != [] {
        conditions := conditions + [trimmed];
        newCondition := "";
      }
    }

    /** `removeCondition`. */
    method RemoveCondition(condition: string)
      modifies this`conditions
      ensures conditions == WithoutCondition(old(conditions), condition)
    {
      conditions := WithoutCondition(conditions, condition);
    }

    /** `addEmergencyContact`, with the new id given. */
    method AddEmergencyContact(newId: string)
      modifies this`emergencyContacts
      ensures emergencyContacts == old(emergencyContacts) + [NewContact(newId)]
    {
      emergencyContacts := emergencyContacts + [NewContact(newId)];
    }

    /** `removeEmergencyContact`. */
    method RemoveEmergencyContact(id: string)
      modifies this`emergencyContacts
      ensures emergencyContacts == RemoveById(old(emergencyContacts), ContactId, id)
    {
      emergencyContacts := RemoveById(emergencyContacts, ContactId, id);
    }

    /** One of the contact inputs at row `index`. */
    method EditEmergencyContact(index: nat, field: ContactField, value: string)
      requires index < |emergencyContacts|
      modifies this`emergencyContacts
      ensures |emergencyContacts| == |old(emergencyContacts)|
      ensures emergencyContacts[index] == WithContactField(old(emergencyContacts)[index], field, value)
      ensures forall k :: 0 <= k < |emergencyContacts| && k != index ==>
        emergencyContacts[k] == old(emergencyContacts)[k]
    {
      emergencyContacts := emergencyContacts[index := WithContactField(emergencyContacts[index], field, value)];
    }
  }

  // ----- cn -----

  /** `Boolean` on a string: only the empty string is falsy. */
  function Truthy(s: string): bool { s != "" }

  /** `parts.join(' ')`. */
  function Join(parts: seq<string>): string
  {
    if parts == [] then ""
    else if |parts| == 1 then parts[0]
    else parts[0] + " " + Join(parts[1..])
  }

  /** `s.split(' ')`: the pieces between single spaces; "" gives [""]. */
  function Split(s: string): (r: seq<string>)
    ensures r != []
  {
    if s == [] then [""]
    else if s[0] == ' ' then [""] + Split(s[1..])
    else
      var rest := Split(s[1..]);
      [[s[0]] + rest[0]] + rest[1..]
  }

  /** Text without a space splits into itself. */
  lemma {:induction false} SplitWithoutSpace(a: string)
    requires ' ' !in a
    ensures Split(a) == [a]
  {
    if a != [] {
      SplitWithoutSpace(a[1..]);
      assert [a[0]] + a[1..] == a;
    }
  }

  /** A space-free first piece followed by a space splits off first. */
  lemma {:induction false} SplitAtSpace(a: string, b: string)
    requires ' ' !in a
    ensures Split(a + " " + b) == [a] + Split(b)
  {
    if a == [] {
      assert a + " " + b == [' '] + b;
      assert (a + " " + b)[1..] == b;
    } else {
      var s := a + " " + b;
      assert s[0] == a[0] && s[1..] == a[1..] + " " + b;
      SplitAtSpace(a[1..], b);
      assert [a[0]] + a[1..] == a;
    }
  }

  /** Splitting undoes joining when no piece holds a space. */
  lemma {:induction false} SplitJoin(parts: seq<string>)
    requires parts != []
    requires forall k :: 0 <= k < |parts| ==> ' ' !in parts[k]
    ensures Split(Join(parts)) == parts
  {
    if |parts| == 1 {
      SplitWithoutSpace(parts[0]);
    } else {
      SplitAtSpace(parts[0], Join(parts[1..]));
      SplitJoin(parts[1..]);
    }
  }

  /** Joining at least one non-empty piece gives a non-empty string. */
  lemma JoinNonEmpty(parts: seq<string>)
    requires parts != [] && parts[0] != ""
    ensures Join(parts) != ""
  {
    if |parts| > 1 {
      assert Join(parts)[0] == parts[0][0];
    }
  }

  /** Joining the non-empty names gives "" exactly when there are none. */
  lemma JoinTruthyEmpty(classes: seq<string>)
    ensures Join(Filter(Truthy, classes)) == "" <==> forall k :: 0 <= k < |classes| ==> classes[k] == ""
  {
    var kept := Filter(Truthy, classes);
    if kept == [] {
      forall k | 0 <= k < |classes| ensures classes[k] == "" {
        assert classes[k] in classes;
        assert classes[k] !in kept;
      }
    } else {
      assert kept[0] in kept;
      JoinNonEmpty(kept);
    }
  }

  /** `cn(...classes)`: the non-empty class names joined by single spaces; the
      result is empty exactly when every name is. */
  function Cn(classes: seq<string>): (r: string)
    ensures r == "" <==> forall k :: 0 <= k < |classes| ==> classes[k] == ""
  {
    JoinTruthyEmpty(classes);
    Join(Filter(Truthy, classes))
  }

  /** With space-free names, splitting the result of `cn` on spaces gives back
      exactly the non-empty names, in their order. */
  lemma CnSplitsIntoTruthyNames(classes: seq<string>)
    requires forall k :: 0 <= k < |classes| ==> ' ' !in classes[k]
    requires exists k :: 0 <= k < |classes| && classes[k] != ""
    ensures Split(Cn(classes)) == Filter(Truthy, classes)
  {
    var kept := Filter(Truthy, classes);
    var k :| 0 <= k < |classes| && classes[k] != "";
    assert classes[k] in kept;
    forall i | 0 <= i < |kept| ensures ' ' !in kept[i] {
      assert kept[i] in classes;
    }
    SplitJoin(kept);
  }
}
