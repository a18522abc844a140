/** Job postings and their paid/expired lifecycle (job_board/models.py,
    class `Job`). A job is an immutable record; `activate` and `expire` are
    pure transitions that return whether they fired, the job afterwards and
    the notifications they emitted. Time is the abstract parameter `now`. */
module Jobs {
  import opened Wrappers
  import opened Sites

  /** Global reference data; only the display name is used. */
  datatype Country = Country(name: string)

  /** A posting. `paidAt` and `expiredAt` are the two nullable timestamps that
      carry the lifecycle; the category, company and owner are referred to by
      primary key. */
  datatype Job = Job(
    createdAt: int,
    title: string,
    description: string,
    applicationInfo: string,
    location: string,
    email: string,
    categoryId: nat,
    country: Option<Country>,
    companyId: nat,
    paidAt: Option<int>,
    expiredAt: Option<int>,
    site: Site,
    userId: nat)

  /** The message body: the expiry template rendered with the job as its
      context. Rendering itself is not modelled. */
  datatype Body = ExpiredTemplate(job: Job)

  /** One outgoing e-mail, as handed to the mail sender. */
  datatype Notification = Notification(subject: string, body: Body, sender: string, recipients: seq<string>)

  /** What a transition reports: whether it fired, the job afterwards, and the
      notifications it emitted. */
  datatype Transition = Transition(fired: bool, job: Job, sent: seq<Notification>)

  /** The three lifecycle stages, in the only order they can be reached. */
  datatype Stage = Unpaid | Paid | Expired

  predicate IsPaid(j: Job) {
    j.paidAt.Some?
  }

  predicate IsUnexpired(j: Job) {
    j.expiredAt.None?
  }

  /** Listed on the site: paid and not yet expired. */
  predicate IsActive(j: Job) {
    IsPaid(j) && IsUnexpired(j)
  }

  /** The lifecycle invariant: a job is never expired without being paid. */
  predicate Wf(j: Job) {
    j.expiredAt.Some? ==> j.paidAt.Some?
  }

  function StageOf(j: Job): Stage {
    if j.paidAt.None? then Unpaid
    else if j.expiredAt.None? then Paid
    else Expired
  }

  function Rank(s: Stage): nat {
    match s
    case Unpaid => 0
    case Paid => 1
    case Expired => 2
  }

  /** Subject line of the expiry notification. */
  function ExpirySubject(site: Site): string {
    "Your " + site.name + " job has expired"
  }

  /** `Job.activate`: an unpaid job becomes paid at `now`; a job already paid
      is left as it is. Activation sends nothing. */
  function Activate(j: Job, now: int): (t: Transition)
    ensures t.fired <==> !IsPaid(j)
    ensures t.sent == []
    ensures t.fired ==> t.job == j.(paidAt := Some(now))
    ensures !t.fired ==> t.job == j
  {
    if j.paidAt.None? then Transition(true, j.(paidAt := Some(now)), [])
    else Transition(false, j, [])
  }

  /** `Job.expire`: an active job becomes expired at `now` and its contact
      address is sent one notification from the administrator address of
      the site's first configuration; any other job is left as it is and
      nothing is sent. The configuration is only needed when the transition
      fires. */
  function Expire(j: Job, now: int, configs: seq<SiteConfig>): (t: Transition)
    requires IsActive(j) ==> HasConfigFor(configs, j.site.id)
    ensures t.fired <==> IsActive(j)
    ensures !t.fired ==> t.job == j && t.sent == []
    ensures t.fired ==> t.job == j.(expiredAt := Some(now))
    ensures t.fired ==> |t.sent| == 1
    ensures t.fired ==> t.sent[0].recipients == [j.email]
    ensures t.fired ==> t.sent[0].subject == "Your " + j.site.name + " job has expired"
    ensures t.fired ==> t.sent[0].body == ExpiredTemplate(t.job)
    ensures t.fired ==> exists i :: 0 <= i < |configs| && configs[i].siteId == j.site.id
                                    && t.sent[0].sender == configs[i].adminEmail
                                    && FirstConfigIndex(configs, j.site.id) == Some(i)
  {
    if j.paidAt.Some? && j.expiredAt.None? then
      var sc := configs[FirstConfigIndex(configs, j.site.id).value];
      var expired := j.(expiredAt := Some(now));
      Transition(true, expired, [Notification(ExpirySubject(j.site), ExpiredTemplate(expired), sc.adminEmail, [j.email])])
    else Transition(false, j, [])
  }

  /** `Job.format_country`: the country's name when one is set, otherwise a
      placeholder that is starred when a free-text location is given. */
  function FormatCountry(j: Job): (r: string)
    ensures j.country.Some? ==> r == j.country.value.name
    ensures j.country.None? ==> (r == "Anywhere*" <==> j.location != "")
    ensures j.country.None? ==> (r == "Anywhere" <==> j.location == "")
  {
    if j.country.Some? then j.country.value.name
    else if j.location != "" then "Anywhere*"
    else "Anywhere"
  }
}
