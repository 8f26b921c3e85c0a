/** The recruiter's "Post an Opportunity" form (RecruiterPost): the table of
    roles per sport, the change handler that resets the role when the sport
    changes, and the reset after a successful post.  The invariant is that
    the chosen role is one the chosen sport lists. */
module PostForm {
  import opened Common

  /** The sports the sport select offers, in display order. */
  const Sports: seq<string> := ["Cricket", "Football", "Badminton"]

  /** `ROLES`: the roles the role select offers for each sport. */
  const Roles: map<string, seq<string>> := map[
    "Cricket" := ["Batsman", "Bowler", "All-rounder", "Wicket-keeper"],
    "Football" := ["Forward", "Midfielder", "Defender", "Goalkeeper"],
    "Badminton" := ["Singles", "Doubles", "Mixed Doubles"]
  ]

  /** Every offered sport has a non-empty role list, and no other sport has
      one. */
  lemma RolesCoverSports()
    ensures forall s :: s in Roles <==> s in Sports
    ensures forall s :: s in Roles ==> |Roles[s]| > 0
  {
  }

  datatype Form = Form(title: string, sport: string, role: string, location: string, date: string, description: string)

  /** The form's named inputs. */
  datatype Field = Title | Sport | Role | Location | Date | Description

  function Get(f: Form, field: Field): string
  {
    match field
    case Title => f.title
    case Sport => f.sport
    case Role => f.role
    case Location => f.location
    case Date => f.date
    case Description => f.description
  }

  /** `{ ...prev, [name]: value }`. */
  function Set(f: Form, field: Field, value: string): (r: Form)
    ensures Get(r, field) == value
    ensures forall g :: g != field ==> Get(r, g) == Get(f, g)
  {
    match field
    case Title => f.(title := value)
    case Sport => f.(sport := value)
    case Role => f.(role := value)
    case Location => f.(location := value)
    case Date => f.(date := value)
    case Description => f.(description := value)
  }

  /** The form's starting (and post-submit) values. */
  const Initial: Form := Form("", "Cricket", "Batsman", "", "", "")

  /** The chosen role is one the chosen sport lists. */
  predicate Consistent(f: Form)
  {
    f.sport in Roles && f.role in Roles[f.sport]
  }

  /** `handleChange`: the field takes the new value; a sport change also
      resets the role to the sport's first role.  A sport with no entry in
      the table makes `ROLES[value][0]` throw, which the model reports as no
      next form. */
  function HandleChange(f: Form, field: Field, value: string): (r: Option<Form>)
    ensures field != Sport ==> r.Some? && Get(r.value, field) == value
    ensures field != Sport ==> r.Some? && forall g :: g != field ==> Get(r.value, g) == Get(f, g)
    ensures field == Sport ==> (r.Some? <==> value in Roles)
    ensures field == Sport && r.Some? ==> r.value.sport == value && r.value.role == Roles[value][0]
    ensures field == Sport && r.Some? ==> forall g :: g != Sport && g != Role ==> Get(r.value, g) == Get(f, g)
  {
    var next := Set(f, field, value);
    if field != Sport then Some(next)
    else if value in Roles && |Roles[value]| > 0 then Some(next.(role := Roles[value][0]))
    else None
  }

  /** What the page's controls can send: a listed sport from the sport
      select, a role the current sport lists from the role select, and any
      text from the text inputs. */
  predicate Offered(f: Form, field: Field, value: string)
  {
    match field
    case Sport => value in Sports
    case Role => f.sport in Roles && value in Roles[f.sport]
    case _ => true
  }

  /** The initial form is consistent, and every change the controls can
      make keeps it consistent (and never throws). */
  lemma InitialConsistent()
    ensures Consistent(Initial)
  {
  }

  lemma ChangeKeepsConsistent(f: Form, field: Field, value: string)
    requires Consistent(f)
    requires Offered(f, field, value)
    ensures HandleChange(f, field, value).Some?
    ensures Consistent(HandleChange(f, field, value).value)
  {
    RolesCoverSports();
    var r := HandleChange(f, field, value).value;
    if field != Sport && field != Role {
      assert Get(r, Sport) == Get(f, Sport) && Get(r, Role) == Get(f, Role);
    }
  }

  /** A sport change does not touch the text the recruiter has typed. */
  lemma SportChangeKeepsText(f: Form, value: string)
    requires value in Sports
    ensures var r := HandleChange(f, Sport, value).value;
      r.title == f.title && r.location == f.location && r.date == f.date && r.description == f.description
  {
    RolesCoverSports();
    var r := HandleChange(f, Sport, value).value;
    assert Get(r, Title) == Get(f, Title) && Get(r, Location) == Get(f, Location);
    assert Get(r, Date) == Get(f, Date) && Get(r, Description) == Get(f, Description);
  }

  /** After the post request: the initial values when it succeeded,
      otherwise the form as it was. */
  function AfterSubmit(f: Form, succeeded: bool): (r: Form)
    ensures succeeded ==> r == Initial
    ensures !succeeded ==> r == f
  {
    if succeeded then Initial else f
  }

  /** Submitting, in either outcome, leaves a consistent form consistent. */
  lemma SubmitKeepsConsistent(f: Form, succeeded: bool)
    requires Consistent(f)
    ensures Consistent(AfterSubmit(f, succeeded))
  {
  }
}
