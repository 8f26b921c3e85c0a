/** The records the scoring and discovery code works on, as the pages and
    controllers read them.  Identifiers are database object ids: an abstract
    type with equality. */
module Entities {
  import opened Common

  /** A database object id. */
  type Id(==)

  /** The two account roles. */
  datatype Role = Athlete | Recruiter

  /** One value of a post's `aiMetrics` object: a number on the 0-10 scale or
      a short categorical trait. */
  datatype Metric = Num(value: real) | Str(text: string)

  /** A key of `aiMetrics` with its value.  A post's metrics are a sequence of
      these in property order; an absent `aiMetrics` is the empty sequence. */
  type MetricEntry = (string, Metric)

  /** The athlete a feed post is populated with (`post.athleteId`); every
      field may be missing.  The two scores are `scoutScore.metaScore` and
      `scoutScore.sportScore`. */
  datatype Athlete = Athlete(
    id: Id,
    name: Option<string>,
    sport: Option<string>,
    location: Option<string>,
    playerRole: Option<string>,
    metaScore: Option<real>,
    sportScore: Option<real>)

  /** A performance post (video clip). `createdAt` is in milliseconds. */
  datatype Post = Post(
    id: Id,
    athlete: Option<Athlete>,
    createdAt: int,
    aiMetrics: seq<MetricEntry>,
    scoutSummary: Option<string>)

  /** The populated athlete's `scoutScore.metaScore`, `sport` and
      `playerRole`, absent when the athlete or the field is. */
  function MetaOf(p: Post): Option<real>
  {
    if p.athlete.Some? then p.athlete.value.metaScore else None
  }

  function SportOf(p: Post): Option<string>
  {
    if p.athlete.Some? then p.athlete.value.sport else None
  }

  function RoleOf(p: Post): Option<string>
  {
    if p.athlete.Some? then p.athlete.value.playerRole else None
  }

  /** A user document as the recruiter query sees it.  The user schema does
      not declare the two scores, so a document may lack either. */
  datatype Profile = Profile(
    id: Id,
    role: Role,
    name: string,
    sport: Option<string>,
    location: Option<string>,
    age: Option<real>,
    playerRole: Option<string>,
    metaScore: Option<real>,
    sportScore: Option<real>)

  /** A recruiter's opportunity posting. `createdAt` is in milliseconds. */
  datatype Opportunity = Opportunity(
    id: Id,
    recruiterId: Id,
    title: string,
    sport: string,
    role: string,
    location: string,
    date: string,
    description: string,
    applicants: seq<Id>,
    createdAt: int)

  /** The authenticated caller of a controller. */
  datatype Caller = Caller(id: Id, role: Role)
}
