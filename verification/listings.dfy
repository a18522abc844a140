/** Categories and companies, and the job listings derived from them
    (job_board/models.py, `Category.active_jobs`, `Company.active_jobs`,
    `Company.paid_jobs`). A table of jobs is a sequence in primary-key
    order; a listing is an order-preserving filter of it. */
module Listings {
  import opened Wrappers
  import opened Seqs
  import opened Sites
  import opened Jobs

  datatype Category = Category(id: nat, name: string, siteId: nat)

  datatype Company = Company(
    id: nat,
    name: string,
    url: string,
    twitter: string,
    country: Option<Country>,
    siteId: nat,
    userId: nat)

  /** Selector of a category's jobs: its reverse relation `job_set`. */
  function InCategory(categoryId: nat): Job -> bool {
    (j: Job) => j.categoryId == categoryId
  }

  /** Selector of a category's paid jobs. */
  function PaidInCategory(categoryId: nat): Job -> bool {
    (j: Job) => j.categoryId == categoryId && IsPaid(j)
  }

  /** Selector of a category's active jobs. */
  function ActiveInCategory(categoryId: nat): Job -> bool {
    (j: Job) => j.categoryId == categoryId && IsActive(j)
  }

  /** Selector of a company's paid jobs. */
  function PaidInCompany(companyId: nat): Job -> bool {
    (j: Job) => j.companyId == companyId && IsPaid(j)
  }

  /** Selector of a company's active jobs: both conditions in one filter. */
  function ActiveInCompany(companyId: nat): Job -> bool {
    (j: Job) => j.companyId == companyId && IsActive(j)
  }

  /** `Category.active_jobs`: the category's jobs, filtered first on a set
      payment time and then on an unset expiry time. The chain selects the
      same jobs, in the same order, as one filter on both conditions. */
  function CategoryActiveJobs(c: Category, jobs: seq<Job>): (r: seq<Job>)
    ensures r == Filter(jobs, ActiveInCategory(c.id))
    ensures forall i :: 0 <= i < |r| ==> r[i].categoryId == c.id && IsActive(r[i])
  {
    var paid := Filter(Filter(jobs, InCategory(c.id)), IsPaid);
    FilterFilter(jobs, InCategory(c.id), IsPaid, PaidInCategory(c.id));
    FilterFilter(jobs, PaidInCategory(c.id), IsUnexpired, ActiveInCategory(c.id));
    Filter(paid, IsUnexpired)
  }

  /** `Company.active_jobs`: the company's jobs that are paid and not expired. */
  function CompanyActiveJobs(co: Company, jobs: seq<Job>): (r: seq<Job>)
    ensures forall i :: 0 <= i < |r| ==> r[i].companyId == co.id && IsActive(r[i])
    ensures forall i :: 0 <= i < |jobs| && jobs[i].companyId == co.id && IsActive(jobs[i]) ==> jobs[i] in r
  {
    Filter(jobs, ActiveInCompany(co.id))
  }

  /** `Company.paid_jobs`: the company's jobs that have been paid, expired
      or not. */
  function CompanyPaidJobs(co: Company, jobs: seq<Job>): (r: seq<Job>)
    ensures forall i :: 0 <= i < |r| ==> r[i].companyId == co.id && IsPaid(r[i])
    ensures forall i :: 0 <= i < |jobs| && jobs[i].companyId == co.id && IsPaid(jobs[i]) ==> jobs[i] in r
  {
    Filter(jobs, PaidInCompany(co.id))
  }

  /** A company's active listing is exactly its paid listing with the
      expired jobs removed, in the same order; in particular it is never
      longer. */
  lemma ActiveIsUnexpiredPaid(co: Company, jobs: seq<Job>)
    ensures CompanyActiveJobs(co, jobs) == Filter(CompanyPaidJobs(co, jobs), IsUnexpired)
    ensures |CompanyActiveJobs(co, jobs)| <= |CompanyPaidJobs(co, jobs)|
  {
    FilterFilter(jobs, PaidInCompany(co.id), IsUnexpired, ActiveInCompany(co.id));
  }

  /** Expiring one of a company's active jobs takes it off the active
      listing and leaves the paid listing as long as before. */
  lemma ExpireLeavesActiveListing(co: Company, jobs: seq<Job>, i: int, now: int, configs: seq<SiteConfig>)
    requires 0 <= i < |jobs|
    requires jobs[i].companyId == co.id && IsActive(jobs[i])
    requires HasConfigFor(configs, jobs[i].site.id)
    ensures var after := jobs[i := Expire(jobs[i], now, configs).job];
            && |CompanyActiveJobs(co, after)| == |CompanyActiveJobs(co, jobs)| - 1
            && |CompanyPaidJobs(co, after)| == |CompanyPaidJobs(co, jobs)|
  {
    var e := Expire(jobs[i], now, configs).job;
    FilterUpdateCount(jobs, i, e, ActiveInCompany(co.id));
    FilterUpdateCount(jobs, i, e, PaidInCompany(co.id));
  }

  /** Activating one of a company's unpaid jobs puts it on both the active
      and the paid listing. */
  lemma ActivateJoinsListings(co: Company, jobs: seq<Job>, i: int, now: int)
    requires 0 <= i < |jobs|
    requires jobs[i].companyId == co.id && Wf(jobs[i]) && !IsPaid(jobs[i])
    ensures var after := jobs[i := Activate(jobs[i], now).job];
            && |CompanyActiveJobs(co, after)| == |CompanyActiveJobs(co, jobs)| + 1
            && |CompanyPaidJobs(co, after)| == |CompanyPaidJobs(co, jobs)| + 1
  {
    var a := Activate(jobs[i], now).job;
    FilterUpdateCount(jobs, i, a, ActiveInCompany(co.id));
    FilterUpdateCount(jobs, i, a, PaidInCompany(co.id));
  }
}
