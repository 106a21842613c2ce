# Equipment rental: reservation engine and user registry in Dafny

This project models the core of a small Flask application that rents out equipment
(tents, tools, ...). The repository holds two variants of the booking engine that
were never reconciled, and the model keeps them apart:

* the **explicit-status variant** (`src/`): booking an item marks it `reservado`, the
  date check is an inclusive overlap test, a start before today is refused, and
  finalizing a booking deletes it and marks the item `disponivel` again;
* the **`finalizada` variant** (`app/`): an item's status is never changed by a booking,
  availability is the `esta_disponivel(data_inicio, data_fim)` query, finalized
  bookings are kept with a flag, and deleting items or bookings is for administrators.

Next to them sit the user registry rules: self-registration in both variants (with
different locks once a first user exists), the login decision, and the
administrators' JSON user API of the `app/` variant.

Each route becomes a method of a class whose `map` fields are the database tables
(`SrcRoutes.Db`, `AppRoutes.Db`, `AppUsers.UserDb`, `SrcAuth.UserDb`). A route's flash
message and redirect become an `Outcome`/`AuthOutcome` value, and an exception the
route does not catch becomes `ServerError` with nothing committed. Each method keeps
the class invariant `Valid()` and states its entire new state. The pure parts of the
models are functions and lemmas: availability, duration, `to_dict` date rendering,
password hashing, the login decision and the dashboard queries.

Dates are day numbers (`date.toordinal()`). The form's date strings arrive already
classified as a `DateField`: missing, empty, not a date, or a day. "Today" is a
parameter. Where a query's result depends on the order in which the table yields
rows, that order is a parameter (`linhas`), a full scan listing every row of the
table exactly once; the `ORDER BY` that follows is proved to produce those rows,
each once, sorted by the key.

What the proofs establish beyond each route's contract:

* **src variant.** Every stored booking's item is marked `reservado`, and no item
  has two bookings (`SrcRoutes.Consistente`, kept by every route). As a consequence
  the date-overlap query in `nova_reserva` can never refuse anything: an item that
  passes the status check has no booking at all (`DisponivelSemConflito`).
* **app variant.** `Equipamento.esta_disponivel` is called with Python `date` values.
  For a `date`, `d ± timedelta(seconds=1)` keeps only the whole days of the delta,
  which are zero, so the one-second shifts vanish. The query then refuses exactly
  when a booking of the item starts or ends inside the requested period. This is
  not the day-granular reading `ini <= start < fim or ini < end <= fim` that a
  datetime comparison would give. In particular a one-day request is refused when a booking
  starts or ends on that day (`PedidoDeUmDia`); it is not always available.
  The check misses exactly the bookings that strictly contain the request
  (`EstaDisponivelSeDisjuntaOuContem`), so an item can be double-booked
  (`CenarioReservaAninhada`). What it does preserve is that the bookings of each
  item are pairwise disjoint or strictly nested (`AppRoutes.Laminar`).
* **users.** Usernames and emails stay unique, and as long as any user exists one
  of them is an administrator: the first user registered becomes one, and an
  administrator can neither delete nor demote themselves.

## Model

| member | source | states |
|---|---|---|
| SrcModels.NovoEquipamento | src/models.py:31 | A new item's status is the one given, and `disponivel` when none is given, which makes it bookable. The duplicate model in src/models/equipamento.py:10 has the same default. |
| SrcModels.EstaDisponivel | src/models.py:47-48 | True exactly when the status is `disponivel`; `reservado` and `manutencao` are both unavailable. The duplicate at src/models/equipamento.py:26-27 is identical. |
| SrcModels.DuracaoDias | src/models.py:77-80 | 0 when either date is missing; for ordered dates it is the number of days in the period, both ends counted, hence at least 1, and 1 for a one-day booking. The duplicate at src/models/equipamento.py:56-59 is identical. |
| SrcModels.DuracaoDeslocada | src/models.py:79 | Moving both dates by the same number of days leaves the duration unchanged. |
| IsoDate.Format | src/models.py:70 | `strftime('%Y-%m-%d')`: ten characters, dashes at positions 4 and 7, digits elsewhere. |
| IsoDate.Parse | src/models.py:70-71 | Reads a `YYYY-MM-DD` string; whatever it accepts is a valid calendar date that renders back to the same string. |
| IsoDate.ParseFormat | src/models.py:70-71 | Reading a rendered valid date gives the date back. |
| IsoDate.ToDict | src/models.py:70-71 | A missing date is rendered as None; a present one as a ten-character string that reads back as that date. The duplicate at src/models/equipamento.py:49-50 is identical. |
| SrcRoutes.ConsistenteSemDuplaReserva | src/routes/equipamento.py:105-135 | In a consistent store no item has two bookings whose periods meet. |
| SrcRoutes.DisponivelSemConflito | src/routes/equipamento.py:105-120 | An item that passes the status check has no booking, so the overlap query after it cannot refuse the request. |
| SrcRoutes.Db.NovoEquipamento | src/routes/equipamento.py:29-54 | An empty or missing name is refused with no change; otherwise exactly one item is added under a fresh id, with the form's status or `disponivel`. |
| SrcRoutes.Db.NovaReserva | src/routes/equipamento.py:65-142 | The guard chain in order (a missing field; a bad date; start after end, so equal dates pass; start before today; unknown item; item not `disponivel`; inclusive overlap with a booking) refuses with no change; otherwise one booking is added with the given fields and its item, and only it, becomes `reservado`. The store stays consistent. |
| SrcRoutes.Db.ExcluirEquipamento | src/routes/equipamento.py:150-171 | Unknown id: not found. An item any booking names is refused with no change. Otherwise only that item is removed. |
| SrcRoutes.Db.ExcluirReserva | src/routes/equipamento.py:174-192 | Unknown id: not found. Otherwise only that booking is removed and its item is marked `disponivel`. |
| SrcRoutes.Db.FinalizarReserva | src/routes/equipamento.py:195-209 | Same effect as deleting the booking. |
| SrcRoutes.CenarioBarraca | src/routes/equipamento.py:105-135 | After Alice books a tent, Bob is refused by the status check for any dates, even days after hers. |
| SrcRoutes.CenarioFinalizacao | src/routes/equipamento.py:195-205 | Finalizing Alice's booking frees the tent for Bob; a second finalize of the same id is not found. |
| AppModels.NovoEquipamento | app/models.py:42 | The status defaults to `disponivel`. |
| AppModels.NovaReserva | app/models.py:79 | A new booking is not finalized and carries the given fields. |
| AppModels.DatePlusSeconds | app/models.py:52 | Adding less than a day of seconds to a `date` leaves it unchanged. |
| AppModels.DateMinusSeconds | app/models.py:51 | Subtracting less than a day of seconds from a `date` leaves it unchanged. |
| AppModels.EstaDisponivel | app/models.py:47-55 | True exactly when no booking of this item, finalized or not, starts or ends within [ini, fim]. |
| AppModels.EstaDisponivelSeDisjuntaOuContem | app/models.py:49-55 | For ordered periods it is true exactly when every booking of the item is disjoint from the request or strictly contains it. |
| AppModels.ContencaoNaoDetectada | app/models.py:51-52 | A booking strictly containing the request overlaps it and is still not reported. |
| AppModels.OutroEquipamentoIrrelevante | app/models.py:49 | Adding or removing a booking of another item never changes the answer. |
| AppModels.FinalizadaAindaBloqueia | app/models.py:49-54 | Finalizing a booking does not change the answer: finalized bookings still block. |
| AppModels.PedidoDeUmDia | app/models.py:51-52 | A one-day request is refused exactly when a booking of the item starts or ends on that day. |
| AppModels.DuracaoDias | app/models.py:81-84 | For ordered dates it is the number of days in the period, both ends counted: at least 1, and 1 when start equals end. |
| AppRoutes.AceiteMantemLaminar | app/models.py:47-55 | Adding a booking the query accepts keeps each item's bookings disjoint or strictly nested. |
| AppRoutes.Db.NovoEquipamento | app/routes/equipamento.py:59-72 | Non-administrators are refused. A missing name fails the NOT NULL constraint with no change. Otherwise one item is added under a fresh id, status defaulting to `disponivel`. |
| AppRoutes.Db.ExcluirEquipamento | app/routes/equipamento.py:77-89 | Refused for non-administrators and for an item with any booking, finalized ones included. Otherwise only that item is removed. |
| AppRoutes.Db.NovaReserva | app/routes/equipamento.py:104-143 | In order: a missing date is a server error; a bad date is refused; start after end is refused; an unknown item is not found; a clash reported by the query is refused; a missing client name is a server error. Each leaves the store unchanged. Otherwise one unfinalized booking is added and no item changes. |
| AppRoutes.Db.FinalizarReserva | app/routes/equipamento.py:149-162 | Unknown id: not found. An already finalized booking: a warning and no change. Otherwise only that booking's flag is set. |
| AppRoutes.Db.ExcluirReserva | app/routes/equipamento.py:165-176 | Refused for non-administrators. Otherwise only that booking is removed, finalized or not. |
| AppRoutes.OpcoesNovaReserva | app/routes/equipamento.py:145 | Over a full scan of the table, the form offers exactly the items whose status is not `manutencao`, each once (as many as there are such items), in name order. |
| AppRoutes.OpcoesOrdenadas | app/routes/equipamento.py:145 | Sorting the offered rows by name keeps exactly the scanned items not under maintenance and puts their names in order. |
| AppRoutes.OpcoesDistintas | app/routes/equipamento.py:145 | A scan that repeats no row offers no item twice after sorting. |
| AppRoutes.ReservaveisDistintas | app/routes/equipamento.py:145 | A scan that repeats no row yields each offered item at most once. |
| Ordering.SortBy | app/routes/equipamento.py:145 | `ORDER BY`: the same rows, each as often as before, keys ascending. |
| AppRoutes.PrimeirasPorInicioOrdenadas | app/routes/equipamento.py:39 | The latest-bookings list holds min(5, number of scanned unfinalized rows) ids, each an unfinalized booking, in start order. |
| AppRoutes.PrimeirasPorInicioMinimas | app/routes/equipamento.py:39 | No unfinalized booking left off the list starts before a listed one: the list holds the earliest-starting bookings. |
| AppRoutes.PrimeirasPorInicioDistintas | app/routes/equipamento.py:39 | A scan that repeats no row lists no booking twice. |
| AppRoutes.AtivasContagem | app/routes/equipamento.py:38-39 | A full scan yields exactly one row per unfinalized booking. |
| AppRoutes.AtivasDistintas | app/routes/equipamento.py:39 | A scan that repeats no row yields each unfinalized booking at most once. |
| AppRoutes.Dashboard | app/routes/equipamento.py:34-39 | Over a full scan: the item count, exactly the items marked `disponivel`, exactly the unfinalized bookings, and min(5, their number) distinct unfinalized bookings in start order, none of which starts after any unfinalized booking left out. |
| AppRoutes.CenarioBarraca | app/routes/equipamento.py:127-140 | A booking sharing Alice's last day is refused, and one starting the day after is accepted. |
| AppRoutes.CenarioFinalizacao | app/routes/equipamento.py:149-159 | A second finalize only warns, and the finalized booking still blocks its first day. |
| AppRoutes.CenarioReservaAninhada | app/models.py:51-52 | Days 103-105 are accepted inside a booking of days 100-110: the item is double-booked. |
| Accounts.CheckPasswordHash | app/models.py:22-23 | Matches exactly the password the hash was made from; a missing password raises. |
| Accounts.GeneratePasswordHash | app/models.py:19-20 | Fails exactly for a missing or empty password; the hash checks true for that password only. |
| Accounts.SetPassword | src/models.py:13-15 | Replaces only the hash, failing on a missing or empty password. |
| Accounts.SubstituicaoMantemUnicos | app/models.py:14-15 | Replacing a user's record without changing name or email keeps both unique. |
| Accounts.NovoUsuario | app/models.py:17 | A new user is not an administrator and carries the given name, email and password. |
| Accounts.Login | app/routes/main.py:20-28 | Logs in exactly when a user of that name exists and the password matches. A missing password for an existing user raises. The other variant decides the same way (src/routes/auth.py:13-24). |
| Accounts.LoginAposRegisto | app/routes/main.py:20-23 | A user stored with the hash of a password logs in with that password and with no other. |
| AppUsers.Porteiro | app/routes/user_api.py:10-15 | Lets a request through exactly when the caller is logged in as an administrator; an ordinary user is refused. |
| AppUsers.UserDb.Register | app/routes/main.py:43-73 | Shut (no change) once a user exists unless `allow_init` is `'1'`. Then a taken username is refused. Then a failed hash (missing or empty password) is a server error, whatever the name and email, exactly as `set_password` raises before the commit. Otherwise a missing name or email, or a taken email, is rolled back. Otherwise one user is added, an administrator exactly when the table was empty. |
| AppUsers.UserDb.CreateUser | app/routes/user_api.py:20-37 | Behind the gate: a missing or empty field is a bad request and a taken username or email a conflict, both with no change. Otherwise exactly one non-administrator is added. |
| AppUsers.UserDb.UpdateUser | app/routes/user_api.py:56-69 | Behind the gate: unknown id, not found. An empty password raises with no change. Otherwise a supplied password is re-hashed and `is_admin` is applied only to another user. Nothing else changes and the acting administrator stays one. |
| AppUsers.UserDb.DeleteUser | app/routes/user_api.py:74-82 | Behind the gate: unknown id, not found. Deleting oneself is refused. Otherwise only the target is removed, and the acting administrator remains. |
| AppUsers.CenarioRegisto | app/routes/main.py:45-64 | The first user registers freely and becomes administrator. Afterwards registration is shut without `allow_init` and with `allow_init=true`, and reopens with `allow_init=1` for a plain user. |
| AppUsers.CenarioApiUsuarios | app/routes/user_api.py:14-78 | An ordinary user is refused by the gate. The administrator can neither delete nor demote themselves. |
| AppUsers.CenarioLogin | app/routes/main.py:20-23 | The first registered user logs in with their password and is refused with any other. |
| SrcAuth.UserDb.Register | src/routes/auth.py:39-65 | Shut (no change) once a user exists unless `allow_init` is non-empty. A taken username is refused. Then a failed hash, a missing name or email, or a taken email is a server error with no change, and nothing else is. Otherwise one user is added, an administrator exactly when the table was empty. |
| SrcAuth.CenarioRegisto | src/routes/auth.py:41-59 | Registration stays shut for a missing or empty `allow_init` and reopens for `allow_init=true`. A taken username is still refused, and only the first user is administrator. |

## Left out

- Flask and the ORM session: templates, flash messages, redirects, blueprints and commit/rollback are replaced by the maps of each `Db` class and by result values.
- Date parsing with `strptime` is a library call: a form date arrives as a `DateField` (missing, empty, not a date, or a day number).
- The conversion between day numbers and calendar dates (`date.fromordinal`) is not modelled. `IsoDate` renders a calendar date directly.
- IsoDate.Format: always pads the year to four digits. For years below 1000, `strftime('%Y')` on glibc may print the year without padding; the model does not capture that platform behaviour.
- `date.today()` is the parameter `hoje`.
- bcrypt is opaque: a hash records its salt and the password it was made from, and the salt is a parameter.
- Accounts.GeneratePasswordHash: does not model bcrypt's 72-byte input limit. Depending on the bcrypt version, longer passwords are cut at 72 bytes or refused with ValueError. The model hashes the whole password.
- Accounts.CheckPasswordHash: compares whole passwords. With bcrypt's 72-byte cut, two passwords that share their first 72 bytes would both check true.
- Accounts.LoginAposRegisto: "refused with any other password" holds for the idealised hash only. Under bcrypt's 72-byte cut, another password with the same first 72 bytes would also log in.
- The `@login_required` guards on `dashboard`, `nova_reserva` and `finalizar_reserva` (app/routes/equipamento.py:33,105,150) and on `novo_equipamento` (src/routes/equipamento.py:28) are session plumbing and not modelled. Those routes are modelled as if called by a logged-in user. The admin-only routes of the app variant take the caller's administrator flag; the login redirect that the admin decorator applies first (app/routes/equipamento.py:17) is not modelled, so an anonymous caller counts as a non-administrator.
- Ids that the form sends as text which is not a number are not modelled. An id field is either missing/empty (`None`) or an integer. SQLite's possible reuse of a deleted row's id is not modelled; ids come from a counter.
- A JSON `password` of `null` in `update_user` raises like an empty one. The model has only "not supplied" and a string, so it does not distinguish the two. Non-boolean `is_admin` values are not modelled.
- The table scan order is a parameter (`linhas`) of the dashboard and booking-form queries. `reservas_ativas` and `equipamentos_disponiveis` are modelled as sets of ids.
- The listing and lookup endpoints (`list_users`, `get_user`, `listar_*`, `index`) and the `data_cadastro`/`data_criacao` timestamps are not modelled.
- The reminder-mail job in app/utils/email_tasks.py (mail transport, scheduler, clock) is not part of this model. Its one filter, bookings starting tomorrow, is not modelled, and the `cliente_email` attribute it reads does not exist on the booking model.
- The `src/` tree never imports `Equipamento`, `Reserva` or `db` where it uses them, so as written those routes would fail at run time. The model follows the evident intent, as if the imports were there.
- In `src/` the `get_or_404` of the delete routes sits inside a `try ... except Exception` block. The model reports a missing id as not found, without the rollback and redirect the handler adds.
- The race between the availability check and the insert is not modelled; the model is single-threaded.
- The login route's redirect of an already-logged-in user, logout, `remember=True` and the `next` parameter are session plumbing and not modelled.
- GET requests, which only render forms, are not modelled.
