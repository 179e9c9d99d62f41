/** The patient form's state (components/PatientForm.tsx): the initial
    record, the field update bound to every input and select, the family
    history toggle and the submit hand-off. */
module PatientForm {
  import opened Types

  /** The fields bound to an input or select through its `name`. */
  datatype Field =
    | Age | Gender | Weight | Height | SystolicBP | DiastolicBP
    | FastingBloodSugar | Cholesterol | SmokingStatus | PhysicalActivity

  /** What a field holds. */
  datatype FieldValue = Number(n: real) | Text(s: string)

  /** The `type` of the element each field is bound to
      (components/PatientForm.tsx:48-166): the three selects report
      "select-one", every other field is an `<input type="number">`. */
  function InputType(f: Field): string
  {
    match f
    case Gender | SmokingStatus | PhysicalActivity => "select-one"
    case _ => "number"
  }

  /** Reads one field of the record. */
  function Get(d: PatientData, f: Field): FieldValue
  {
    match f
    case Age => Number(d.age)
    case Gender => Text(d.gender)
    case Weight => Number(d.weight)
    case Height => Number(d.height)
    case SystolicBP => Number(d.systolicBP)
    case DiastolicBP => Number(d.diastolicBP)
    case FastingBloodSugar => Number(d.fastingBloodSugar)
    case Cholesterol => Number(d.cholesterol)
    case SmokingStatus => Text(d.smokingStatus)
    case PhysicalActivity => Text(d.physicalActivity)
  }

  /** The update handleChange applies, components/PatientForm.tsx:26-32:
      the named field gets `parseFloat(value)` when its element is a number
      input and the raw `value` otherwise; nothing else changes.
      `parseFloat` is a parameter. */
  function ChangeField(d: PatientData, f: Field, value: string, parseFloat: string -> real): (r: PatientData)
    ensures Get(r, f) == if InputType(f) == "number" then Number(parseFloat(value)) else Text(value)
    ensures forall g :: g != f ==> Get(r, g) == Get(d, g)
    ensures r.familyHistory == d.familyHistory
  {
    var n := parseFloat(value);
    match f
    case Age => d.(age := n)
    case Gender => d.(gender := value)
    case Weight => d.(weight := n)
    case Height => d.(height := n)
    case SystolicBP => d.(systolicBP := n)
    case DiastolicBP => d.(diastolicBP := n)
    case FastingBloodSugar => d.(fastingBloodSugar := n)
    case Cholesterol => d.(cholesterol := n)
    case SmokingStatus => d.(smokingStatus := value)
    case PhysicalActivity => d.(physicalActivity := value)
  }

  /** `history.filter(h => h !== condition)`. */
  function Without(history: seq<string>, condition: string): (r: seq<string>)
    ensures condition !in r
    ensures forall x :: x != condition ==> (x in r <==> x in history)
    ensures |r| <= |history|
  {
    if history == [] then []
    else if history[0] == condition then Without(history[1..], condition)
    else [history[0]] + Without(history[1..], condition)
  }

  /** The family history after handleCheckbox,
      components/PatientForm.tsx:37-39: a present condition is removed, an
      absent one appended. Its membership flips; no other condition's
      membership changes. */
  function Toggle(history: seq<string>, condition: string): (r: seq<string>)
    ensures condition in r <==> condition !in history
    ensures forall x :: x != condition ==> (x in r <==> x in history)
  {
    if condition in history then Without(history, condition) else history + [condition]
  }

  /** handleCheckbox applied to the record, components/PatientForm.tsx:34-41:
      only the family history changes. */
  function ToggleHistory(d: PatientData, condition: string): (r: PatientData)
    ensures r.familyHistory == Toggle(d.familyHistory, condition)
    ensures forall g :: Get(r, g) == Get(d, g)
  {
    d.(familyHistory := Toggle(d.familyHistory, condition))
  }

  /** `a` is `b` with some entries left out, the rest in their order. */
  predicate IsSubsequence(a: seq<string>, b: seq<string>)
  {
    if a == [] then true
    else if b == [] then false
    else if a[0] == b[0] then IsSubsequence(a[1..], b[1..])
    else IsSubsequence(a, b[1..])
  }

  lemma {:induction false} SubsequenceOfTail(a: seq<string>, b: seq<string>)
    requires b != [] && IsSubsequence(a, b[1..])
    ensures IsSubsequence(a, b)
  {
    if a != [] && a[0] == b[0] {
      SubsequenceDropFirst(a, b[1..]);
    }
  }

  lemma {:induction false} SubsequenceDropFirst(a: seq<string>, b: seq<string>)
    requires a != [] && IsSubsequence(a, b)
    ensures IsSubsequence(a[1..], b)
  {
    if a[0] == b[0] {
      if a[1..] != [] {
        SubsequenceOfTail(a[1..], b);
      }
    } else {
      SubsequenceDropFirst(a, b[1..]);
      SubsequenceOfTail(a[1..], b);
    }
  }

  /** Removing a condition keeps the other entries in their order and with
      their multiplicities, and removes every occurrence. */
  lemma {:induction false} WithoutKeepsOthers(history: seq<string>, condition: string)
    ensures IsSubsequence(Without(history, condition), history)
    ensures multiset(Without(history, condition)) == multiset(history)[condition := 0]
  {
    if history != [] {
      var rest := Without(history[1..], condition);
      WithoutKeepsOthers(history[1..], condition);
      assert history == [history[0]] + history[1..];
      if history[0] == condition {
        SubsequenceOfTail(rest, history);
      } else {
        assert Without(history, condition) == [history[0]] + rest;
        assert Without(history, condition)[1..] == rest;
      }
    }
  }

  /** Removing from a concatenation removes from each part. */
  lemma {:induction false} WithoutConcat(a: seq<string>, b: seq<string>, condition: string)
    ensures Without(a + b, condition) == Without(a, condition) + Without(b, condition)
  {
    if a == [] {
      assert a + b == b;
    } else {
      assert (a + b)[0] == a[0] && (a + b)[1..] == a[1..] + b;
      WithoutConcat(a[1..], b, condition);
    }
  }

  /** Removing an absent condition changes nothing. */
  lemma {:induction false} WithoutAbsent(history: seq<string>, condition: string)
    requires condition !in history
    ensures Without(history, condition) == history
  {
    if history != [] {
      WithoutAbsent(history[1..], condition);
      assert history == [history[0]] + history[1..];
    }
  }

  /** Toggling an absent condition appends it at the end. */
  lemma ToggleAbsent(history: seq<string>, condition: string)
    requires condition !in history
    ensures Toggle(history, condition) == history + [condition]
    ensures |Toggle(history, condition)| == |history| + 1
  {
  }

  /** Toggling a present condition removes every occurrence of it and keeps
      the other entries, in order. */
  lemma TogglePresent(history: seq<string>, condition: string)
    requires condition in history
    ensures multiset(Toggle(history, condition))[condition] == 0
    ensures forall x :: x != condition ==> multiset(Toggle(history, condition))[x] == multiset(history)[x]
    ensures IsSubsequence(Toggle(history, condition), history)
  {
    WithoutKeepsOthers(history, condition);
  }

  /** Toggling an absent condition twice gives the original history back. */
  lemma ToggleTwice(history: seq<string>, condition: string)
    requires condition !in history
    ensures Toggle(Toggle(history, condition), condition) == history
  {
    WithoutConcat(history, [condition], condition);
    WithoutAbsent(history, condition);
  }

  /** A history without repeats stays without repeats. */
  predicate NoDuplicates(s: seq<string>)
  {
    forall i, j :: 0 <= i < j < |s| ==> s[i] != s[j]
  }

  lemma {:induction false} SubsequenceNoDuplicates(a: seq<string>, b: seq<string>)
    requires IsSubsequence(a, b) && NoDuplicates(b)
    ensures NoDuplicates(a)
  {
    if a != [] && b != [] {
      if a[0] == b[0] {
        SubsequenceNoDuplicates(a[1..], b[1..]);
        SubsequenceMembers(a[1..], b[1..]);
        assert forall j :: 0 < j < |a| ==> a[j] in b[1..];
        assert forall j :: 0 < j < |a| ==> a[j] != a[0];
      } else {
        SubsequenceNoDuplicates(a, b[1..]);
      }
    }
  }

  lemma {:induction false} SubsequenceMembers(a: seq<string>, b: seq<string>)
    requires IsSubsequence(a, b)
    ensures forall x :: x in a ==> x in b
  {
    if a != [] && b != [] {
      assert a == [a[0]] + a[1..] && b == [b[0]] + b[1..];
      if a[0] == b[0] {
        SubsequenceMembers(a[1..], b[1..]);
      } else {
        SubsequenceMembers(a, b[1..]);
      }
    }
  }

  lemma ToggleKeepsNoDuplicates(history: seq<string>, condition: string)
    requires NoDuplicates(history)
    ensures NoDuplicates(Toggle(history, condition))
  {
    if condition in history {
      WithoutKeepsOthers(history, condition);
      SubsequenceNoDuplicates(Without(history, condition), history);
    }
  }

  /** The form component's state. */
  class Form {
    var formData: PatientData

    /** The initial record, components/PatientForm.tsx:12-24. */
    constructor ()
      ensures formData.age == 45.0 && formData.gender == "Male"
      ensures formData.weight == 75.0 && formData.height == 175.0
      ensures formData.systolicBP == 120.0 && formData.diastolicBP == 80.0
      ensures formData.fastingBloodSugar == 95.0 && formData.cholesterol == 180.0
      ensures formData.smokingStatus == "never" && formData.physicalActivity == "moderate"
      ensures formData.familyHistory == []
    {
      formData := PatientData(45.0, "Male", 75.0, 175.0, 120.0, 80.0, 95.0, 180.0, "never", "moderate", []);
    }

    /** handleChange, components/PatientForm.tsx:26-32. */
    method HandleChange(f: Field, value: string, parseFloat: string -> real)
      modifies this
      ensures formData == ChangeField(old(formData), f, value, parseFloat)
    {
      formData := ChangeField(formData, f, value, parseFloat);
    }

    /** handleCheckbox, components/PatientForm.tsx:34-41. */
    method HandleCheckbox(condition: string)
      modifies this
      ensures formData == ToggleHistory(old(formData), condition)
    {
      formData := ToggleHistory(formData, condition);
    }

    /** The submit handler, components/PatientForm.tsx:44: the current
        record is handed to `onSubmit` as it is. */
    method Submit() returns (submitted: PatientData)
      ensures submitted == formData
    {
      submitted := formData;
    }
  }
}
