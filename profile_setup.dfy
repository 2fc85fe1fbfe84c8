/**
 * The profile form logic of frontend/src/components/ProfileSetup.jsx:
 * answering the personality questions, checking that all are answered, and
 * validating the nickname and bio on submit. The question ids come from a
 * questions file, so they are a parameter here.
 */
module ProfileSetup {
  import opened JsText

  const NICKNAME_MIN := 3
  const NICKNAME_MAX := 20
  const BIO_MAX := 120

  const NICKNAME_ERROR := "Nickname must be between 3 and 20 characters."
  const BIO_ERROR := "Bio must be under 120 characters."

  /** What `onProfileComplete` receives. */
  datatype Profile = Profile(nickname: string, bio: string, personalityAnswers: map<string, string>)

  datatype Submission = Rejected(error: string) | Completed(profile: Profile)

  /** `handleSubmit`: the trimmed nickname must be 3 to 20 long; then the bio,
      before trimming, at most 120; then both are submitted trimmed, with the
      answers as they are. */
  function HandleSubmit(nickname: string, bio: string, answers: map<string, string>): (r: Submission)
    ensures r.Completed? <==> NICKNAME_MIN <= |Trim(nickname)| <= NICKNAME_MAX && |bio| <= BIO_MAX
    ensures r == Rejected(NICKNAME_ERROR) <==> !(NICKNAME_MIN <= |Trim(nickname)| <= NICKNAME_MAX)
    ensures r == Rejected(BIO_ERROR) <==> NICKNAME_MIN <= |Trim(nickname)| <= NICKNAME_MAX && |bio| > BIO_MAX
    ensures r.Completed? ==> r.profile == Profile(Trim(nickname), Trim(bio), answers)
  {
    var name := Trim(nickname);
    if name == [] || |name| < NICKNAME_MIN || |name| > NICKNAME_MAX then Rejected(NICKNAME_ERROR)
    else if |bio| > BIO_MAX then Rejected(BIO_ERROR)
    else Completed(Profile(name, Trim(bio), answers))
  }

  /** A submitted nickname has no surrounding white space, and a second
      submit of a submitted profile gives the same profile. */
  lemma SubmitIsStable(nickname: string, bio: string, answers: map<string, string>)
    requires HandleSubmit(nickname, bio, answers).Completed?
    ensures var p := HandleSubmit(nickname, bio, answers).profile;
      && HandleSubmit(p.nickname, p.bio, p.personalityAnswers) == Completed(p)
      && |p.bio| <= BIO_MAX
  {
    TrimIdempotent(nickname);
    TrimIdempotent(bio);
  }

  /** A bio padded past 120 characters is refused even though it would be
      short enough once trimmed. */
  lemma PaddedBioRefused(nickname: string, bio: string, answers: map<string, string>)
    requires NICKNAME_MIN <= |Trim(nickname)| <= NICKNAME_MAX
    requires |bio| > BIO_MAX
    ensures HandleSubmit(nickname, bio, answers) == Rejected(BIO_ERROR)
  {
  }

  /** `answers[id]` is truthy: present and not empty. */
  predicate Answered(answers: map<string, string>, id: string) {
    id in answers && answers[id] != ""
  }

  /** `QUESTIONS.every(q => answers[q.id])`. */
  function IsQuestionsComplete(questionIds: seq<string>, answers: map<string, string>): (b: bool)
    ensures b <==> forall i :: 0 <= i < |questionIds| ==> Answered(answers, questionIds[i])
  {
    if questionIds == [] then true
    else
      assert forall i :: 1 <= i < |questionIds| ==> questionIds[i] == questionIds[1..][i - 1];
      Answered(answers, questionIds[0]) && IsQuestionsComplete(questionIds[1..], answers)
  }

  /** `handleOptionSelect`: `{ ...prev, [qId]: optionId }`. */
  function HandleOptionSelect(answers: map<string, string>, qId: string, optionId: string): (r: map<string, string>)
    ensures qId in r && r[qId] == optionId
    ensures forall k :: k != qId ==> (k in r <==> k in answers) && (k in answers ==> r[k] == answers[k])
  {
    answers[qId := optionId]
  }

  /** Choosing a non-empty option for each question in turn, starting from no
      answers, completes the questionnaire. */
  lemma {:induction false} AnsweringEveryQuestionCompletes(questionIds: seq<string>, options: seq<string>, answers: map<string, string>)
    requires |options| == |questionIds|
    requires forall i :: 0 <= i < |options| ==> options[i] != ""
    ensures IsQuestionsComplete(questionIds, SelectAll(answers, questionIds, options))
    decreases |questionIds|
  {
    if questionIds != [] {
      var n := |questionIds| - 1;
      var before := SelectAll(answers, questionIds[..n], options[..n]);
      AnsweringEveryQuestionCompletes(questionIds[..n], options[..n], answers);
      forall i | 0 <= i < |questionIds|
        ensures Answered(SelectAll(answers, questionIds, options), questionIds[i])
      {
        if i < n {
          assert questionIds[..n][i] == questionIds[i];
        }
      }
    }
  }

  /** Selecting `options[i]` for `questionIds[i]`, in order. */
  function SelectAll(answers: map<string, string>, questionIds: seq<string>, options: seq<string>): map<string, string>
    requires |options| == |questionIds|
    decreases |questionIds|
  {
    if questionIds == [] then answers
    else
      var n := |questionIds| - 1;
      HandleOptionSelect(SelectAll(answers, questionIds[..n], options[..n]), questionIds[n], options[n])
  }
}
