/**
 * The MongoDB database the handlers share: one collection per model, each a
 * sequence in insertion order. A user's `_id` is its position in `users`.
 * `Valid` is what the schemas and the unique index guarantee of every stored
 * document, and every handler that writes keeps it.
 */
module Store {
  import opened UserModel
  import opened AssessmentModel
  import opened ThreatAlertModel
  import opened EducationContentModel

  class Database {
    var users: seq<User>
    var assessments: seq<Assessment>
    var threats: seq<ThreatAlert>
    var articles: seq<EducationContent>

    predicate Valid()
      reads this
    {
      && UniqueEmails(users)
      && (forall i :: 0 <= i < |users| ==> ValidUser(users[i]))
      && (forall i :: 0 <= i < |assessments| ==> ValidAssessment(assessments[i]))
      && (forall i :: 0 <= i < |threats| ==> ValidThreatAlert(threats[i]))
      && (forall i :: 0 <= i < |articles| ==> ValidContent(articles[i]))
    }

    /** A database with four empty collections. */
    constructor ()
      ensures Valid()
      ensures users == [] && assessments == [] && threats == [] && articles == []
    {
      users, assessments, threats, articles := [], [], [], [];
    }
  }
}
