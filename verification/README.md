# Job-board posting lifecycle, modelled in Dafny

This project models the logic of the job board's data layer (`job_board/models.py`).
A job posting moves through a paid/expired lifecycle that is carried by two nullable timestamps.
A post-save hook provisions a per-site configuration row.
Categories and companies expose filtered listings of their jobs, and a display helper formats a job's country.

Everything is immutable and pure:

- `Jobs.Job` is a record. Its `paidAt` and `expiredAt` are `Option<int>`, and time is an abstract `now` argument.
- `Jobs.Activate` and `Jobs.Expire` return a `Transition`. It holds whether the transition fired, the job afterwards, and the notifications it emitted.
- A table of rows (jobs, site configurations) is a sequence in primary-key order.
- A query-set filter is the order-preserving `Seqs.Filter`. `first()` is the first matching row.
- The get-or-create behind the provisioning hook is `Sites.GetOrCreate`. It returns a `Result`, because its lookup fails when several rows match.

Modules: `Wrappers` (Option, Result), `Seqs` (filtering and its lemmas), `Sites` (site, configuration, provisioning hook), `Jobs` (job record and transitions), `Lifecycle` (properties of sequences of transitions), `Listings` (category and company listings).

Two details of the code shape the model:

- The provisioning hook looks a configuration up by site *and* administrator address, not by site alone (job_board/models.py:21-24). So a site whose administrator address was changed gets a second configuration when it is saved as created (`Sites.AdminEmailIsPartOfKey`).
- `Jobs.Expire` renders the notification body with the job as it is after expiry, because the template is rendered after `expired_at` is assigned.

## Model

| member | source | states |
|---|---|---|
| `Sites.FirstConfigIndex` | job_board/models.py:146 | the chosen row belongs to the site and no earlier row does; there is none exactly when the site has no configuration |
| `Sites.GetOrCreate` | job_board/models.py:21-24 | succeeds iff at most one row matches both site and address; existing rows are kept as a prefix; afterwards exactly one row matches; a row is appended only when none matched, and it carries the key and the 30-day default |
| `Sites.GenerateSiteConfig` | job_board/models.py:17-24 | with `created` false nothing changes; with `created` true or absent it succeeds iff at most one row matches site and `"admin@" + domain`, on success exactly one such row exists, and a row is added only when none matched, as `SiteConfig(site, "admin@" + domain, 30)` appended after the existing rows; failure only on the creation path |
| `Sites.GenerateIdempotent` | job_board/models.py:17-24 | running the hook again on its own result, for the same site, changes nothing |
| `Sites.FreshSiteGetsOneConfig` | job_board/models.py:17-24 | a site without configuration ends with exactly one, `SiteConfig(site, "admin@" + domain, 30)`, appended after the existing rows |
| `Sites.AdminEmailIsPartOfKey` | job_board/models.py:21-24 | a site whose configurations all have another address gets one more configuration, so it has at least two |
| `Sites.DuplicateKeyFails` | job_board/models.py:21-24 | two rows matching both site and address make the hook fail with `MultipleObjectsReturned` |
| `Jobs.Activate` | job_board/models.py:135-141 | fires iff the job is unpaid; when it fires only `paidAt` changes, to `now`; otherwise the job is unchanged; nothing is sent |
| `Jobs.Expire` | job_board/models.py:143-158 | fires iff the job is paid and unexpired; when it fires only `expiredAt` changes, to `now`, and exactly one notification goes to `[email]` with subject "Your <site name> job has expired", the expired job as template context and the address of the site's first configuration as sender; otherwise nothing changes and nothing is sent |
| `Jobs.FormatCountry` | job_board/models.py:160-167 | the country's name when set; otherwise "Anywhere*" iff the location is non-empty and "Anywhere" iff it is empty |
| `Lifecycle.ActivateTwiceIsNoOp` | job_board/models.py:135-141 | a second activation does not fire and leaves the job as the first left it |
| `Lifecycle.ExpireTwiceIsNoOp` | job_board/models.py:143-158 | a second expiry does not fire, sends nothing and leaves the job as the first left it |
| `Lifecycle.ActivateStep` | job_board/models.py:135-141 | keeps "expired implies paid", never overwrites a set `paidAt`, never touches `expiredAt`, moves Unpaid to Paid and no other stage |
| `Lifecycle.ExpireStep` | job_board/models.py:143-158 | keeps "expired implies paid", never touches `paidAt`, never overwrites a set `expiredAt`, moves Paid to Expired and no other stage |
| `Lifecycle.RunLifecycle` | job_board/models.py:135-158 | for a job whose site has a configuration, over any sequence of calls: the invariant holds, the stage only advances along Unpaid, Paid, Expired, set timestamps are kept, and exactly one notification is sent iff the sequence is the one that expired the job |
| `Lifecycle.RunChronological` | job_board/models.py:135-158 | for a job whose site has a configuration and a clock that does not run backwards, created, paid and expired times stay in that order over any sequence of calls |
| `Listings.CategoryActiveJobs` | job_board/models.py:41-43 | the two chained filters select exactly the category's paid, unexpired jobs, and the same sequence as one filter on both conditions (the sequence order is the model's primary-key order) |
| `Listings.CompanyActiveJobs` | job_board/models.py:87-89 | selects only the company's paid, unexpired jobs and every one of them |
| `Listings.CompanyPaidJobs` | job_board/models.py:91-92 | selects only the company's paid jobs, expired or not, and every one of them |
| `Listings.ActiveIsUnexpiredPaid` | job_board/models.py:87-92 | the active listing is the paid listing with the expired jobs removed, in the same order, so it is never longer |
| `Listings.ExpireLeavesActiveListing` | job_board/models.py:87-92 | expiring one active job of a company shortens its active listing by one and leaves its paid listing as long as before |
| `Listings.ActivateJoinsListings` | job_board/models.py:87-92 | activating one unpaid, well-formed job of a company lengthens both its active and its paid listing by one |

## Left out

- Persistence: `save()`, model managers, `CurrentSiteManager`, `ordering` and the `unique_together` constraints on categories and companies belong to the framework. Rows are plain sequences in primary-key order. `Job` declares no ordering, so the order of a category's or company's job listing is this model's choice, not a promise of the code; only which jobs are listed is.
- Mail delivery and template rendering: `send_mail`, `fail_silently=True` and `render_to_string` are I/O. The body is the abstract value `ExpiredTemplate(job)`.
- `timezone.now()` is the `now` argument of each transition.
- The crash when a site has no configuration (`sc` is `None`) happens after the job is saved and depends on the framework. `Jobs.Expire` requires a configuration for the job's site, but only when the job is active, since that is the only case where the lookup result is used.
- Field validators, length limits, `SmallIntegerField` range, `__str__`, help texts and the markdown link strings are presentation and framework validation.
- Concurrent `activate`/`expire` calls: the code has no locking, and concurrency is not modelled.
- The retry of get-or-create after an integrity error is not modelled. No uniqueness constraint on configurations exists, so that path cannot arise.
- The signal's `sender` argument and the case of a missing `instance` are not modelled. The hook is modelled for a given site.
- Activation and expiry return only the boolean the code returns.
- Python truthiness: `if self.country` is modelled as "a country is set", since a model instance is always truthy. `if self.location` is modelled as "the location is non-empty", since a blank text field stores the empty string.
