/** The per-form auto-send policy: which finalized instances are sent, and whether any form forces sending. */
module AutoSendPolicy {
  import opened Wrappers

  /** A row of the forms table, with the columns this core reads; autoSend is the AUTO_SEND column. */
  datatype Form = Form(formId: string, version: Option<string>, autoSend: Option<string>, formFilePath: string)

  /** A finalized instance; id is its database id as text, the key of the result report. */
  datatype Instance = Instance(id: string, formId: string, version: Option<string>, instanceFilePath: string)

  function UpperAscii(c: char): char
  {
    if 'a' <= c <= 'z' then (c as int - 32) as char else c
  }

  function LowerAscii(c: char): char
  {
    if 'A' <= c <= 'Z' then (c as int + 32) as char else c
  }

  /** One position of String.equalsIgnoreCase: same character, same upper case, or same lower case of the upper case. */
  predicate CharEqualsIgnoreCase(a: char, b: char)
  {
    a == b || UpperAscii(a) == UpperAscii(b) || LowerAscii(UpperAscii(a)) == LowerAscii(UpperAscii(b))
  }

  predicate EqualsIgnoreCase(a: string, b: string)
  {
    |a| == |b| && forall i | 0 <= i < |a| :: CharEqualsIgnoreCase(a[i], b[i])
  }

  lemma LetterIgnoringCase(c: char, lower: char)
    requires 'a' <= lower <= 'z'
    ensures CharEqualsIgnoreCase(c, lower) <==> c == lower || c == UpperAscii(lower)
  {
  }

  /** Boolean.valueOf(String): true exactly for a non-null "true" spelt in any letter case. */
  function BooleanValueOf(s: Option<string>): (r: bool)
    ensures r <==> s.Some? && |s.value| == 4 && s.value[0] in "tT" && s.value[1] in "rR"
                   && s.value[2] in "uU" && s.value[3] in "eE"
  {
    if s.Some? && |s.value| == 4 then
      LetterIgnoringCase(s.value[0], 't');
      LetterIgnoringCase(s.value[1], 'r');
      LetterIgnoringCase(s.value[2], 'u');
      LetterIgnoringCase(s.value[3], 'e');
      EqualsIgnoreCase(s.value, "true")
    else
      false
  }

  /** k is the first row of the forms table carrying formId. */
  ghost predicate IsFirstWithFormId(forms: seq<Form>, formId: string, k: int)
  {
    0 <= k < |forms| && forms[k].formId == formId && forall j | 0 <= j < k :: forms[j].formId != formId
  }

  /** The AUTO_SEND value read from the first row of the cursor for formId; None when there is no row or the column is null. */
  function FormLevelAutoSend(forms: seq<Form>, formId: string): (r: Option<string>)
    ensures (forall k | 0 <= k < |forms| :: forms[k].formId != formId) ==> r == None
    ensures forall k | IsFirstWithFormId(forms, formId, k) :: r == forms[k].autoSend
  {
    if forms == [] then None
    else if forms[0].formId == formId then forms[0].autoSend
    else
      var r := FormLevelAutoSend(forms[1..], formId);
      assert forall k | IsFirstWithFormId(forms, formId, k) :: k > 0 && IsFirstWithFormId(forms[1..], formId, k - 1);
      r
  }

  /** formShouldBeAutoSent: the form-level value decides when there is one, otherwise the app-level flag does. */
  function FormShouldBeAutoSent(forms: seq<Form>, formId: string, appFlag: bool): (r: bool)
    ensures (forall k | 0 <= k < |forms| :: forms[k].formId != formId) ==> r == appFlag
    ensures forall k | IsFirstWithFormId(forms, formId, k) ::
              r == if forms[k].autoSend == None then appFlag else BooleanValueOf(forms[k].autoSend)
  {
    var formLevel := FormLevelAutoSend(forms, formId);
    if formLevel == None then appFlag else BooleanValueOf(formLevel)
  }

  /** With the app setting off only forms that ask for auto-send are sent; with it on, all but those that opt out. */
  lemma AppSettingAndFormLevelValue(forms: seq<Form>, formId: string)
    ensures FormShouldBeAutoSent(forms, formId, false) == BooleanValueOf(FormLevelAutoSend(forms, formId))
    ensures FormShouldBeAutoSent(forms, formId, true)
            == (FormLevelAutoSend(forms, formId) == None || BooleanValueOf(FormLevelAutoSend(forms, formId)))
    ensures FormShouldBeAutoSent(forms, formId, false) ==> FormShouldBeAutoSent(forms, formId, true)
  {
  }

  /** A form-level value makes the app-level flag irrelevant. */
  lemma FormLevelValueOverridesAppSetting(forms: seq<Form>, formId: string, appFlag: bool)
    requires FormLevelAutoSend(forms, formId).Some?
    ensures FormShouldBeAutoSent(forms, formId, appFlag) == FormShouldBeAutoSent(forms, formId, !appFlag)
    ensures FormShouldBeAutoSent(forms, formId, appFlag) == EqualsIgnoreCase(FormLevelAutoSend(forms, formId).value, "true")
  {
  }

  /** The instances of `finalized` whose forms should be auto-sent, in their original order. */
  function AutoSendCandidates(finalized: seq<Instance>, forms: seq<Form>, appFlag: bool): (r: seq<Instance>)
    ensures |r| <= |finalized|
    decreases |finalized|
  {
    if finalized == [] then []
    else
      var last := finalized[|finalized| - 1];
      var init := AutoSendCandidates(finalized[..|finalized| - 1], forms, appFlag);
      if FormShouldBeAutoSent(forms, last.formId, appFlag) then init + [last] else init
  }

  /** a can be obtained from b by deleting elements. */
  ghost predicate IsSubsequence<T>(a: seq<T>, b: seq<T>)
    decreases |b|
  {
    a == [] ||
    (b != [] &&
     (IsSubsequence(a, b[..|b| - 1]) ||
      (a[|a| - 1] == b[|b| - 1] && IsSubsequence(a[..|a| - 1], b[..|b| - 1]))))
  }

  lemma {:induction false} CandidatesAreSubsequence(finalized: seq<Instance>, forms: seq<Form>, appFlag: bool)
    ensures IsSubsequence(AutoSendCandidates(finalized, forms, appFlag), finalized)
    decreases |finalized|
  {
    if finalized != [] {
      var init := finalized[..|finalized| - 1];
      var r := AutoSendCandidates(finalized, forms, appFlag);
      var r' := AutoSendCandidates(init, forms, appFlag);
      CandidatesAreSubsequence(init, forms, appFlag);
      if r != r' {
        assert r[..|r| - 1] == r';
      }
    }
  }

  /** Every eligible instance keeps all its copies and every other instance is dropped. */
  lemma {:induction false} CandidatesKeepEveryEligibleInstance(finalized: seq<Instance>, forms: seq<Form>, appFlag: bool, x: Instance)
    ensures multiset(AutoSendCandidates(finalized, forms, appFlag))[x]
            == if FormShouldBeAutoSent(forms, x.formId, appFlag) then multiset(finalized)[x] else 0
    decreases |finalized|
  {
    if finalized != [] {
      var init := finalized[..|finalized| - 1];
      var last := finalized[|finalized| - 1];
      var r' := AutoSendCandidates(init, forms, appFlag);
      CandidatesKeepEveryEligibleInstance(init, forms, appFlag, x);
      assert finalized == init + [last];
      assert multiset(finalized) == multiset(init) + multiset{last};
      if FormShouldBeAutoSent(forms, last.formId, appFlag) {
        assert multiset(AutoSendCandidates(finalized, forms, appFlag)) == multiset(r') + multiset{last};
      } else {
        assert AutoSendCandidates(finalized, forms, appFlag) == r';
      }
    }
  }

  /** getInstancesToAutoSend: filter the finalized instances by formShouldBeAutoSent. */
  method GetInstancesToAutoSend(allFinalized: seq<Instance>, forms: seq<Form>, appFlag: bool) returns (toUpload: seq<Instance>)
    ensures toUpload == AutoSendCandidates(allFinalized, forms, appFlag)
    ensures IsSubsequence(toUpload, allFinalized)
    ensures forall x :: multiset(toUpload)[x]
                        == if FormShouldBeAutoSent(forms, x.formId, appFlag) then multiset(allFinalized)[x] else 0
    ensures forall x :: x in toUpload <==> x in allFinalized && FormShouldBeAutoSent(forms, x.formId, appFlag)
  {
    toUpload := [];
    for i := 0 to |allFinalized|
      invariant toUpload == AutoSendCandidates(allFinalized[..i], forms, appFlag)
    {
      assert allFinalized[..i + 1][..i] == allFinalized[..i];
      var instance := allFinalized[i];
      if FormShouldBeAutoSent(forms, instance.formId, appFlag) {
        toUpload := toUpload + [instance];
      }
    }
    assert allFinalized[..|allFinalized|] == allFinalized;
    CandidatesAreSubsequence(allFinalized, forms, appFlag);
    forall x
      ensures multiset(toUpload)[x]
              == if FormShouldBeAutoSent(forms, x.formId, appFlag) then multiset(allFinalized)[x] else 0
    {
      CandidatesKeepEveryEligibleInstance(allFinalized, forms, appFlag, x);
    }
  }

  /** Some form on the device asks for all its instances to be auto-sent. */
  predicate AnyFormForcesAutoSend(forms: seq<Form>)
  {
    exists k | 0 <= k < |forms| :: BooleanValueOf(forms[k].autoSend)
  }

  /** atLeastOneFormSpecifiesAutoSend: scan the forms, stopping at the first that parses as true. */
  method AtLeastOneFormSpecifiesAutoSend(forms: seq<Form>) returns (r: bool)
    ensures r == AnyFormForcesAutoSend(forms)
  {
    for k := 0 to |forms|
      invariant forall j | 0 <= j < k :: !BooleanValueOf(forms[j].autoSend)
    {
      if BooleanValueOf(forms[k].autoSend) {
        return true;
      }
    }
    return false;
  }

  lemma ForcingCarriesOver(a: seq<Form>, b: seq<Form>)
    requires multiset(a) == multiset(b)
    ensures AnyFormForcesAutoSend(a) ==> AnyFormForcesAutoSend(b)
  {
    if AnyFormForcesAutoSend(a) {
      var k :| 0 <= k < |a| && BooleanValueOf(a[k].autoSend);
      assert a[k] in multiset(b);
      var k' :| 0 <= k' < |b| && b[k'] == a[k];
    }
  }

  /** Whether some form forces auto-send does not depend on the order of the forms table. */
  lemma ForcingIgnoresOrder(a: seq<Form>, b: seq<Form>)
    requires multiset(a) == multiset(b)
    ensures AnyFormForcesAutoSend(a) == AnyFormForcesAutoSend(b)
  {
    ForcingCarriesOver(a, b);
    ForcingCarriesOver(b, a);
  }
}
