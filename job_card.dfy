/**
 * The job card: how long ago the job was posted, whether the signed-in user
 * has already applied, and the state change when they apply.
 */
module JobCard {
  import opened Wrappers
  import opened JsStrings

  /**
   * `daysAgoFunction`: `Math.floor((now - createdAt) / MS_PER_DAY)`, both
   * times in milliseconds. Dafny's `/` with a positive divisor rounds down,
   * as `Math.floor` does, also when `createdAt` lies in the future.
   */
  function DaysAgo(now: int, createdAt: int): (days: int)
    ensures days * MS_PER_DAY <= now - createdAt < (days + 1) * MS_PER_DAY
  {
    (now - createdAt) / MS_PER_DAY
  }

  /** The floor bounds pin the day count down: no other count satisfies them. */
  lemma DaysAgoIsTheFloor(now: int, createdAt: int, days: int)
    requires days * MS_PER_DAY <= now - createdAt < (days + 1) * MS_PER_DAY
    ensures days == DaysAgo(now, createdAt)
  {
  }

  /** The posted-ago text on the card. */
  function DaysAgoLabel(days: int): (s: string)
    ensures s == "Today" <==> days == 0
    ensures days != 0 ==> s == IntToString(days) + " days ago"
  {
    if days == 0 then "Today" else IntToString(days) + " days ago"
  }

  /** A label other than "Today" reads back as its day count. */
  lemma {:induction false} DaysAgoLabelReadsBack(days: int)
    requires days != 0
    ensures ParseInt(DaysAgoLabel(days)) == Some(days)
  {
    ParseIntOfIntToString(days, " days ago");
  }

  /** A job posted within the last day is labelled "Today". */
  lemma TodayWithinADay(now: int, createdAt: int)
    ensures DaysAgoLabel(DaysAgo(now, createdAt)) == "Today" <==> 0 <= now - createdAt < MS_PER_DAY
  {
  }

  /** One entry of `job.applications`; `applicant` may be missing. */
  datatype Application = Application(applicant: Option<string>)

  /** `applications.some(application => application.applicant === userId)`. */
  function SomeApplicant(applications: seq<Application>, userId: Option<string>): (r: bool)
    ensures r <==> exists i :: 0 <= i < |applications| && applications[i].applicant == userId
    decreases |applications|
  {
    if |applications| == 0 then false
    else applications[0].applicant == userId || SomeApplicant(applications[1..], userId)
  }

  /** `job?.applications?.some(…) || false`: false when there are no applications. */
  function IsInitiallyApplied(applications: Option<seq<Application>>, userId: Option<string>): (r: bool)
    ensures r <==> applications.Some? && exists i :: 0 <= i < |applications.value| && applications.value[i].applicant == userId
  {
    if applications.None? then false else SomeApplicant(applications.value, userId)
  }

  /**
   * With no signed-in user (`user?._id` is `undefined`) the card is shown as
   * applied only if some application has no applicant.
   */
  lemma NoUserNotApplied(applications: Option<seq<Application>>)
    requires applications.Some? ==> forall i :: 0 <= i < |applications.value| ==> applications.value[i].applicant.Some?
    ensures !IsInitiallyApplied(applications, None)
  {
  }

  /** Appending the user's application makes the check hold, whatever came before. */
  lemma {:induction false} AppendedApplicantFound(applications: seq<Application>, userId: Option<string>)
    ensures SomeApplicant(applications + [Application(userId)], userId)
  {
    var all := applications + [Application(userId)];
    assert all[|applications|].applicant == userId;
  }

  /** The job detail held in the store (`singleJob`); other fields ride along unchanged. */
  datatype SingleJob = SingleJob(id: string, title: string, applications: seq<Application>)

  /**
   * How the apply request ends: an answer with its `success` flag, or a
   * rejected request, with or without an HTTP response attached.
   */
  datatype ApplyOutcome = Answered(success: bool) | RequestFailed(hasResponse: bool)

  /** `{...singleJob, applications: [...singleJob.applications, { applicant: userId }]}`. */
  function WithApplication(job: SingleJob, userId: Option<string>): (r: SingleJob)
    ensures r.id == job.id && r.title == job.title
    ensures |r.applications| == |job.applications| + 1
    ensures r.applications[..|job.applications|] == job.applications
    ensures r.applications[|job.applications|] == Application(userId)
    ensures SomeApplicant(r.applications, userId)
  {
    AppendedApplicantFound(job.applications, userId);
    job.(applications := job.applications + [Application(userId)])
  }

  class Card {
    /** `job.applications` of the job this card shows. */
    const applications: Option<seq<Application>>
    /** `user?._id`. */
    const userId: Option<string>
    var isApplied: bool
    var singleJob: Option<SingleJob>

    /** The card once mounted: `isApplied` starts as the membership check. */
    constructor (applications: Option<seq<Application>>, userId: Option<string>, singleJob: Option<SingleJob>)
      ensures this.applications == applications && this.userId == userId && this.singleJob == singleJob
      ensures isApplied == IsInitiallyApplied(applications, userId)
    {
      this.applications := applications;
      this.userId := userId;
      this.singleJob := singleJob;
      isApplied := IsInitiallyApplied(applications, userId);
    }

    /**
     * `applyJobHandler`. A successful answer sets `isApplied` and replaces
     * `singleJob` with one more application at the end; anything else changes
     * nothing. `completed` is false when the handler's promise rejects: a
     * missing `singleJob` or a failure without a response makes the catch
     * block's own `error.response.data` throw.
     */
    method ApplyJobHandler(outcome: ApplyOutcome) returns (completed: bool)
      modifies this
      ensures outcome == Answered(true) ==> isApplied
      ensures outcome == Answered(true) && old(singleJob).Some? ==>
        singleJob == Some(WithApplication(old(singleJob).value, userId))
      ensures outcome == Answered(true) && old(singleJob).None? ==> singleJob.None?
      ensures outcome != Answered(true) ==> isApplied == old(isApplied) && singleJob == old(singleJob)
      ensures completed <==>
        (outcome == Answered(true) && old(singleJob).Some?) || outcome == Answered(false) ||
        outcome == RequestFailed(true)
    {
      match outcome
      case Answered(success) =>
        if success {
          isApplied := true;
          if singleJob.None? {
            return false;
          }
          singleJob := Some(WithApplication(singleJob.value, userId));
        }
        completed := true;
      case RequestFailed(hasResponse) =>
        completed := hasResponse;
    }

    /**
     * A click on the apply button: while applied the button is disabled and
     * has no handler, so the click reaches the handler only while not applied.
     * The handler runs as one step; a second click while its request is
     * still pending is not modelled.
     */
    method Click(outcome: ApplyOutcome) returns (handled: bool)
      modifies this
      ensures handled <==> !old(isApplied)
      ensures old(isApplied) ==> isApplied && singleJob == old(singleJob)
      ensures !old(isApplied) && outcome == Answered(true) && old(singleJob).Some? ==>
        isApplied && singleJob == Some(WithApplication(old(singleJob).value, userId))
      ensures !old(isApplied) && outcome == Answered(true) && old(singleJob).None? ==>
        isApplied && singleJob.None?
      ensures !old(isApplied) && outcome != Answered(true) ==> !isApplied && singleJob == old(singleJob)
    {
      if isApplied {
        return false;
      }
      var _ := ApplyJobHandler(outcome);
      handled := true;
    }
  }
}
