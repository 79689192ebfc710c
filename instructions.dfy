/** The canned instructions answer of the Authority-facing service
    (src/matrixrmapi/api/instructions.py). The route takes a language in
    its path but never reads it, and applies no CN guard: any caller with
    a client certificate gets the answer. */
module Instructions {
  import opened Common

  const Placeholder: string := "FIXME: Return something sane"

  /** user_intructions: the body's callsign, the placeholder text, and
      always the language "en". */
  function UserInstructions(language: string, user: UserCrudRequest): (r: map<string, string>)
    ensures r.Keys == {"callsign", "instructions", "language"}
    ensures r["callsign"] == user.callsign
    ensures r["instructions"] == "FIXME: Return something sane"
    ensures r["language"] == "en"
  {
    map["callsign" := user.callsign, "instructions" := Placeholder, "language" := "en"]
  }

  /** The answer depends on the callsign alone: neither the path language
      nor the uuid or certificate of the body changes it. */
  lemma AnswerDependsOnCallsignOnly(l1: string, l2: string, u1: UserCrudRequest, u2: UserCrudRequest)
    ensures UserInstructions(l1, u1) == UserInstructions(l2, u2) <==> u1.callsign == u2.callsign
  {
    if UserInstructions(l1, u1) == UserInstructions(l2, u2) {
      assert UserInstructions(l1, u1)["callsign"] == UserInstructions(l2, u2)["callsign"];
    }
  }
}
