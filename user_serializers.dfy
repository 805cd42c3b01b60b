/** backend/users/serializers.py: a profile's hero class can be picked
    once and never changed or cleared afterwards. */
module UserSerializers {
  import opened Wrappers

  const OnceOnly: string := "Class role can be selected only once for this profile."

  /** Python truthiness of a possibly missing id. */
  predicate Chosen(classRoleId: Option<nat>)
  {
    classRoleId.Some? && classRoleId.value != 0
  }

  /** `ProfileSerializer.validate_class_role(value)`. `current` is the
      class id of the profile being edited (None when there is no profile
      or it has no class); `value` is the id of the submitted class (None
      for null). The value is returned unchanged or refused. */
  function ValidateClassRole(current: Option<nat>, value: Option<nat>): (r: Result<Option<nat>, string>)
    ensures r.Success? ==> r.value == value
    ensures r.Failure? ==> r.error == OnceOnly
    ensures !Chosen(current) ==> r.Success?
    ensures Chosen(current) ==> (r.Success? <==> value == current)
  {
    if Chosen(current) && (value.None? || value.value != current.value) then Failure(OnceOnly)
    else Success(value)
  }

  /** Once a class is chosen, every accepted update keeps it: the class
      can neither be replaced nor reset to null. */
  lemma ChoiceIsFinal(current: nat, value: Option<nat>)
    requires current != 0
    ensures ValidateClassRole(Some(current), value).Success? ==> value == Some(current)
    ensures ValidateClassRole(Some(current), None).Failure?
  {
  }
}
