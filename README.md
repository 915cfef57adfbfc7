# Agency backend handlers, modelled in Dafny

This project models the decision logic of the REST handlers of a small agency
back end. Admins manage employees, clients, services, projects and payments.
Clients request services. Every logged-in user can message their contacts.

The store is one class, `Db.Store`. It holds a map keyed by id for each
collection (users, projects, services, service requests, payments, messages)
and a logical clock that issues ids and timestamps. Its invariant `Valid()`
states four things:

- every stored user went through the schema's setters, the pre-save hook and
  the unique email index;
- every stored service passed validation;
- every message's `createdAt` equals its id;
- every id came from the clock.

Each handler works the same way:

- It is a method over the store. It checks its guards in the order the
  controller does, each with its own status code, and then makes at most one
  change.
- Its contract states the whole new state through `Snapshot()`.
- Read-only handlers are functions over the maps.
- The route files' role lists become preconditions on the caller. So does the
  `protect` middleware, whose caller is a stored user with the role stored
  for it.

The modules:

- `Common`, `Text`: ids, `Option`, truthiness, status codes, and the `lowercase` and `trim` setters.
- `UserModel`, `ProjectModel`, `RequestModel`, `ServiceModel`, `PaymentModel`, `MessageModel`: the schemas, with their enums, defaults and validation.
- `Db`: the store.
- `Users`, `Projects`, `ServiceRequests`, `Services`, `Payments`, `Messages`, `Dashboard`, `Auth`: one module per controller.

Mongoose behaviour the handlers rely on, as modelled:

- a query filter on `email` goes through the `lowercase` setter like a write does;
- `trim` runs before `required`, so an all-space name fails validation;
- a validation error or a unique-index violation is caught and answered with 500;
- `findByIdAndUpdate` runs no validators and drops fields that are undefined;
- `save()` validates the required paths of the whole document.

## Model

| member | source | states |
|---|---|---|
| Text.Lower | src/models/userModel.js:7 | The lowercase setter keeps the length and leaves no upper-case letter. Each of 'A'..'Z' becomes its lower-case letter, 'a'..'z', and every other character is kept. |
| Text.LowerIdempotent | src/models/userModel.js:7 | Lowering twice equals lowering once, so lowering an email on save and again in a query gives the same string. |
| Text.Trim | src/models/userModel.js:6 | The trim setter returns an infix that starts and ends with a non-space; everything cut away is space. |
| Text.TrimIdempotent | src/models/userModel.js:6 | Trimming twice equals trimming once. |
| UserModel.ParseRole | src/models/userModel.js:9 | Exactly the three role names are accepted, each mapping to its role. |
| UserModel.SavedPasswordMatchesOnlyItsText | src/models/userModel.js:16-23 | A password hashed once on save passes comparePassword for its own clear text and for no other. |
| UserModel.DoubleHashMatchesNothing | src/models/userModel.js:16-19 | A password hashed twice matches no clear text, which is why the hook checks isModified. |
| UserModel.ComparePassword | src/models/userModel.js:21-23 | comparePassword succeeds only against a digest of exactly the clear text tried, and never against a password left in clear text. |
| UserModel.FindByEmail | src/controllers/auth.js:24 | The lookup compares against the lower-cased email; it finds the one user holding it, or reports that none does. |
| UserModel.UserDocument.Create | src/controllers/user.js:19 | A document built by create counts its password as modified. |
| UserModel.UserDocument.Load | src/controllers/user.js:66 | A document loaded by findById has nothing modified. |
| UserModel.UserDocument.MarkDeleted | src/controllers/user.js:75 | Setting isDeleted changes only that field and not the password's modified flag. |
| UserModel.UserDocument.Save | src/models/userModel.js:16-19 | Save hashes the password only when it was modified, then clears the flag. |
| ProjectModel.ParseStatus | src/models/projectModel.js:8 | Exactly the four status names are accepted. |
| ProjectModel.NewProject | src/models/projectModel.js:4-9 | A new project has no employees and status pending, with the given name, description, client and back-link. |
| RequestModel.NewRequest | src/models/serviceRequest.js:4-7 | A new request is pending, with the given client, service and note. |
| ServiceModel.Validate | src/models/serviceModel.js:3-7 | Creation succeeds exactly when the trimmed name is non-empty and a price of at least 0 is given; the stored name is trimmed. |
| PaymentModel.ParseMethod | src/models/paymentModel.js:8 | Exactly the five method names are accepted. |
| PaymentModel.ParsePaymentStatus | src/models/paymentModel.js:9 | Exactly the three payment status names are accepted. |
| ServiceRequests.CreateRequest | src/controllers/serviceRequest.js:5-20 | With no service id: 400 and the store unchanged. Otherwise one pending request owned by the caller, under a fresh id. |
| ServiceRequests.GetRequests | src/controllers/serviceRequest.js:23-33 | A client gets exactly its own requests; an admin gets all of them. |
| ServiceRequests.DecisionGuard | src/controllers/serviceRequest.js:38-41 | 404 exactly for an unknown id, 400 exactly for a decided request, 200 exactly for a pending one. |
| ServiceRequests.DecidedRequestStaysDecided | src/controllers/serviceRequest.js:40-44 | Once a request is approved or rejected, the guard refuses any further decision with 400. |
| ServiceRequests.ApproveRequest | src/controllers/serviceRequest.js:36-58 | Guard failures change nothing. When the service exists, the request becomes approved and exactly one project is added, named after the service and owned by the request's client. When the service is gone, the request is still saved as approved and the answer is 500 with no project. |
| ServiceRequests.RejectRequest | src/controllers/serviceRequest.js:61-75 | Same guards as approve; then only that request's status becomes rejected and no project is created. |
| ServiceRequests.ApproveThenDecideAgain | src/controllers/serviceRequest.js:36-75 | After an approve, a reject and a second approve of the same request both answer 400, and the request stays approved. |
| Projects.GetProjects | src/controllers/project.js:4-20 | A client gets exactly the projects it owns, an employee exactly those it is assigned to, an admin all of them. |
| Projects.GetProjectById | src/controllers/project.js:23-43 | 404 exactly for an unknown id. 403 exactly for a client who does not own the project or an employee not assigned to it. Otherwise 200 with the project. |
| Projects.ListAgreesWithDetail | src/controllers/project.js:6-37 | A project is in the caller's list exactly when fetching it by id succeeds. |
| Projects.AssignEmployees | src/controllers/project.js:46-64 | A non-array is a 400 and an unknown id a 404, both leaving the store unchanged. Otherwise the employee list is replaced and nothing else changes. |
| Projects.AllowedStatus | src/controllers/project.js:70-72 | Accepts exactly pending, in-progress and completed, never stopped. |
| Projects.StoppedIsRefused | src/controllers/project.js:70-72 | "stopped" is legal for the schema but refused by this handler. |
| Projects.UpdateStatus | src/controllers/project.js:67-88 | 400, 404 and 403 (employee not assigned) change nothing. A project left with an empty name fails save with 500. Otherwise only that project's status changes. |
| Projects.EditDetails | src/controllers/project.js:93-98 | Only name and description can change. A given name is trimmed; an undefined field keeps its old value. |
| Projects.UpdateProject | src/controllers/project.js:91-104 | 404 for an unknown id; otherwise only that project's details change. |
| Projects.DeleteProject | src/controllers/project.js:107-115 | 404 for an unknown id; otherwise only that project is removed, and payments and requests are untouched. |
| Payments.NewPayment | src/controllers/payment.js:14-22 | Validation succeeds exactly when the amount is at least 0 and any method or status given is in its enum. The defaults are method other, status unpaid and date now. |
| Payments.CreatePayment | src/controllers/payment.js:5-33 | A falsy project or amount (0 included) gives 400, an unknown project 404, a failed validation 500, each leaving the store unchanged. Otherwise one payment is added whose client is the project's client. |
| Payments.GetPayments | src/controllers/payment.js:36-46 | A client gets exactly its own payments; every other role gets all of them. |
| Payments.FirstForProject | src/controllers/payment.js:51 | findOne returns the project's payment with the least id, or none when the project has no payment. |
| Payments.GetPaymentByProject | src/controllers/payment.js:49-62 | 200 with no body when there is no payment. 403 exactly for a client who does not own the payment found. Otherwise 200 with exactly that payment: the one of least id for the project. |
| Payments.Amend | src/controllers/payment.js:67-69 | Every field given replaces the old value, every undefined one is kept, and project and client never change. |
| Payments.UpdatePayment | src/controllers/payment.js:65-77 | 404 for an unknown id; otherwise only that payment is amended. |
| Payments.DeletePayment | src/controllers/payment.js:80-88 | 404 for an unknown id; otherwise only that payment is removed. |
| Payments.WithStatusSnoc | src/controllers/payment.js:95-97 | Appending a payment raises the sum for its own status by its amount and leaves the other sums alone. |
| Payments.TotalsPartition | src/controllers/payment.js:95-97 | The paid, unpaid and partial totals add up to the sum of all amounts, for payments whose status is one of the three enum values. |
| Payments.Stats | src/controllers/payment.js:95-98 | Each total is the sum of amounts with its status, and the count is the number of payments. |
| Payments.GetPaymentStats | src/controllers/payment.js:91-104 | Over the stored payments, the count equals the number of payments. totalRevenue, totalPending and totalPartial are the sums of the amounts of the paid, unpaid and partial payments, and together they make up the sum of all amounts (enum-valid statuses only). |
| Payments.StatsAfterNewPayment | src/controllers/payment.js:95-98 | A new payment raises the count by one and only the total of its own status, by its amount. |
| Users.CreateStatus | src/controllers/user.js:9-19 | A missing field, a role other than employee or client, or an email held by an active user gives 400. Otherwise an all-space name or an email held by a soft-deleted user gives 500. 201 happens exactly when no user holds the email and the trimmed name is non-empty. |
| Users.Registered | src/models/userModel.js:6-19 | The stored record has the trimmed name and the lower-cased email. Its password matches exactly the given one. It has no avatar, is not deleted and is never an admin. With a non-empty name and email it has the shape of a stored user. |
| Users.CreateUser | src/controllers/user.js:5-28 | The status is CreateStatus. Every failure leaves the store unchanged with no summary. On 201 exactly the Registered record is added under a fresh id, and the reply is its summary without the password. |
| Users.GetUsers | src/controllers/user.js:33-50 | Exactly the deleted users for deleted=true, exactly the active ones otherwise, narrowed by role when one is given, without passwords. |
| Users.DeletedAndActivePartition | src/controllers/user.js:37-43 | The deleted and active listings are disjoint and, without a role filter, together cover all users. |
| Users.GetUserById | src/controllers/user.js:53-61 | 404 exactly for an unknown id; otherwise the user without the password. |
| Users.DeleteUser | src/controllers/user.js:64-82 | 404 for an unknown id, 403 for an admin, 400 for a user already deleted, 500 when save fails on an empty name. Otherwise only isDeleted is set, and the password hash is untouched. |
| Users.ProfileUpdate | src/controllers/user.js:87-93 | Only name, company and avatar can change, each only when given as a truthy value; the name is trimmed. |
| Users.UpdateProfile | src/controllers/user.js:85-116 | Only the caller's own record changes, by ProfileUpdate, and the reply is that record without the password. |
| Messages.Thread | src/controllers/message.js:52-58 | The thread holds every message between the two users in either direction and nothing else: each listed message is a stored one between them. The order is strictly increasing createdAt. |
| Messages.MarkRead | src/controllers/message.js:62 | Only messages from the other user to the caller are marked read; every other message is unchanged. |
| Messages.ReadingClearsUnread | src/controllers/message.js:62 | After the mark-read, the unread count from the other user to the caller is 0; every other pair's count is unchanged. |
| Messages.GetThread | src/controllers/message.js:47-68 | Returns the thread as it was before the call; the only change to the store is the mark-read. |
| Messages.SendMessage | src/controllers/message.js:71-98 | A missing receiver or content gives 400, an unknown receiver 404, a deleted receiver 400, each leaving the store unchanged. Otherwise one unread message from the caller, created now. |
| Messages.DeleteMessage | src/controllers/message.js:101-113 | 404 for an unknown message, 403 unless the caller sent it; otherwise only that message is removed. |
| Messages.DeleteConversation | src/controllers/message.js:116-132 | Removes exactly the messages between the pair, in both directions, and keeps all others unchanged. |
| Messages.NewestFirst | src/controllers/message.js:9-11 | Lists only messages the caller sent or received. |
| Messages.NewestFirstCovers | src/controllers/message.js:9-11 | Lists every message the caller sent or received. |
| Messages.NewestFirstDecreasing | src/controllers/message.js:12 | That list is newest first. |
| Messages.CollectEntries | src/controllers/message.js:18-36 | Each entry of the scan is built from a listed message: its counterpart, content, time and unread count. |
| Messages.CollectCovers | src/controllers/message.js:18-21 | The scan gives each counterpart exactly one entry. |
| Messages.CollectOrder | src/controllers/message.js:18-39 | Over a newest-first list, the entries come newest first. |
| Messages.CollectFirst | src/controllers/message.js:18-36 | Over a newest-first list, each entry is built from the first, and so newest, message with its counterpart. |
| Messages.ConversationsCoverCounterparts | src/controllers/message.js:16-21 | Every user the caller exchanged a message with has an entry. |
| Messages.ConversationsFromLatest | src/controllers/message.js:12-36 | Each entry is built from the newest message exchanged with its counterpart. |
| Messages.ConversationsAreLatest | src/controllers/message.js:5-40 | There is one entry per distinct counterpart, and every counterpart has one. Each entry's lastMessage is the newest message with that counterpart, and its unread count is the number of unread messages the counterpart sent the caller. Entries come newest first. |
| Messages.GroupByCounterpart | src/controllers/message.js:16-37 | The loop over a list of messages, which adds an entry only when the counterpart has none, returns exactly the scan Collect describes. |
| Messages.GetConversations | src/controllers/message.js:5-40 | The sorted find followed by that loop returns exactly the list that ConversationsAreLatest describes. |
| Messages.GetContacts | src/controllers/message.js:135-165 | Never a deleted user. For an admin: the active employees and clients. For an employee: the admins plus the active clients of its projects. For a client: the admins plus the active employees on its projects. |
| Services.CreateServicePriced | src/controllers/service.js:4-14 | With a price forwarded: 400 without a name, 500 when validation fails, otherwise one validated service under a fresh id. |
| Services.CreateService | src/controllers/service.js:4-14 | As written: 400 without a name, otherwise always 500, and no service is ever created. |
| Services.PriceDecidesCreation | src/models/serviceModel.js:4-6 | A non-empty name with a price validates; the same name without one never does. |
| Db.Store.AddUser | src/models/userModel.js:7 | A stored-shape record whose email no user holds goes in under the next id; the store invariant, including the unique email index, still holds. |
| Db.Store.AddService | src/models/serviceModel.js:4-6 | A validated service goes in under the next id; the store invariant still holds. |
| Services.GetServices | src/controllers/service.js:17-24 | Every stored service, each once: the listing has one entry per stored id, in increasing id order, and each entry is the service stored under that id. |
| Services.DeleteService | src/controllers/service.js:27-35 | 404 for an unknown id; otherwise only that service is removed. |
| Dashboard.GroupByStatus | src/controllers/dashboard.js:16-18 | There is a group exactly for each status some project has, holding that status's project count, which is at least 1. |
| Dashboard.GetDashboardStats | src/controllers/dashboard.js:7-32 | totalProjects and totalServices are the collection sizes. totalEmployees and totalClients count the users with that role, soft-deleted ones included, and with the admins they make up all users. pendingRequests is the number of pending requests. projectsByStatus groups the projects by status, and its counts sum to totalProjects. |
| Dashboard.RolesPartitionUsers | src/controllers/dashboard.js:11-12 | Every user has exactly one role, so the three role counts add up to the number of users. |
| Dashboard.GroupCounts | src/controllers/dashboard.js:16-18 | Each group count equals the size of its status class; an absent group stands for an empty class. |
| Dashboard.StatusGroupsPartitionProjects | src/controllers/dashboard.js:13-18 | The status groups' counts sum to the number of projects. |
| Dashboard.SoftDeleteKeepsStats | src/controllers/dashboard.js:11-12 | Soft-deleting a user leaves every dashboard figure unchanged, because deleted users are still counted. |
| Dashboard.DecisionLowersPending | src/controllers/dashboard.js:15 | Deciding a pending request lowers the pending count by exactly one. |
| Auth.Login | src/controllers/auth.js:18-39 | 400 when the email or password is missing. An unknown email and a wrong password both give the identical 401 "Invalid credentials" reply. Success happens exactly when a user has the lower-cased email and the password matches; it returns that user's summary and a token for its id and role. |
| Auth.LoginAfterCreate | src/controllers/auth.js:24-28 | A user stored with an email and a once-hashed password can log in with them, in any letter case of the email. |
| Auth.OnlyTheSetPasswordLogsIn | src/controllers/auth.js:27-28 | For a stored user, login succeeds exactly with the password it was set from. |
| Auth.LoginIgnoresDeletion | src/controllers/auth.js:24-30 | Soft-deleting a user changes no login outcome. |
| Auth.Logout | src/controllers/auth.js:42-45 | Always 200. |
| Auth.Protect | src/middleware/protect.js:4-19 | 401 without a verified token or when its user is gone. Otherwise the caller is the stored user, with the role stored now. |
| Auth.ProtectAdmitsAuthenticated | src/middleware/protect.js:11-15 | Every caller protect admits is authenticated in the sense the handlers assume. |
| Auth.LoginTokenPassesProtect | src/middleware/protect.js:10-15 | A token issued at login passes protect, and soft deletion does not revoke it. |

The cookie lifetime is `Auth.CookieMaxAge`, 24 * 60 * 60 * 1000 ms
(src/controllers/auth.js:11). The default token expiry is `Auth.DefaultExpiresIn`,
"1d" (src/controllers/auth.js:5).

## Findings

| source | as written | input that shows it | evidently intended | confidence | as-written member | corrected member |
|---|---|---|---|---|---|---|
| src/controllers/service.js:9 | `Service.create({ name, description })` never passes `price`, and the schema requires it (src/models/serviceModel.js:6). Every request that passes the name check fails validation and gets 500. | an admin posts `{ name: "Web design", price: 100 }` | the price from the body reaches `Service.create`, so a valid request creates the service | high; not executed | Services.CreateService | Services.CreateServicePriced |

## Left out

- Message schema: src/models/messageModel.js is not part of this model. Its fields (sender, receiver, content, a read flag defaulting to false, createdAt) are inferred from how src/controllers/message.js uses them.
- `isDeleted` is not declared in the user schema (src/models/userModel.js:4-14). The model follows the handlers' intent and treats it as a stored field. Mongoose's strict mode could drop the write or the filter; that is not modelled.
- Users.Registered: gives every new user `isDeleted == false`, which the source never sets. A document from `User.create` (src/controllers/user.js:19) has no such field, and a `{ isDeleted: false }` filter (src/controllers/user.js:16, 40; src/controllers/message.js:138) does not match a missing field. In the source, a freshly created user is therefore missing from the active listings, from the contacts and from the email-in-use check until the field is written; the model lists it as active.
- Login ledger and geo lookup: the AccessLog schema (src/models/accessLog.js) is never used by the handlers, so no attempt counting is modelled.
- Auth.Login: the login check does not reject soft-deleted accounts, because the code looks up by email only. The model follows the code.
- JWT signing and verification, and the cookie transport, are left out. `Auth.Token` is the pair of claims. A token that is missing, malformed or expired is the `None` input of `Auth.Protect`.
- bcrypt is idealized as the datatype constructor `Digest`: an injective hash whose result never equals a clear text. Real bcrypt reads only the first 72 bytes of its input, and its digest is itself a string. Salts and cost factors are not modelled.
- UserModel.ComparePassword: true exactly for the clear text the digest was made from. Real bcrypt.compare also accepts any text that agrees with it in the first 72 bytes.
- UserModel.SavedPasswordMatchesOnlyItsText: "for no other text" rests on the injective `Digest`. With bcrypt, a chosen password of 72 times "a" followed by "1" also matches 72 times "a" followed by "2".
- UserModel.DoubleHashMatchesNothing: rests on a digest never equalling a clear text. With bcrypt, the text of the first digest matches the double hash; no user supplies that text, so the account is still unusable in practice.
- Auth.OnlyTheSetPasswordLogsIn: "exactly the password it was set from" holds up to bcrypt's 72-byte limit; a longer password also logs in with any text sharing its first 72 bytes.
- The avatar upload to Cloudinary and its failure (src/controllers/user.js:93-109) are foreign I/O. `Users.UpdateProfile` takes the resulting URL as an optional input.
- getMe (src/controllers/auth.js:48-50) only echoes the caller; it is not modelled.
- Server plumbing (app setup, CORS, routing, database connection) and populate/select projections are not modelled. So neither is the 500 a populate would cause for a missing referenced document.
- The try/catch 500 for database failures and for ids that fail to cast is not modelled. Request fields are typed inputs (`Option<Id>`, `Option<int>`, `Option<string>`), not arbitrary JSON.
- Payments.UpdatePayment: the update takes typed values (a natural amount, enum members) because findByIdAndUpdate runs no validators and casts in ways not modelled. Raw strings or negative amounts sent to this route are not modelled. In the source such a request stores an out-of-enum status (say "refunded") or a negative amount. After that the paid, unpaid and partial totals of src/controllers/payment.js:95-97 no longer add up to the sum of amounts. So Payments.TotalsPartition, Payments.Stats and Payments.GetPaymentStats hold only while every stored status is one of the three enum values, which the typed update keeps true.
- Payments.TotalsPartition: proved for the three enum statuses only; a status stored through the unvalidated update above falls outside every total.
- Payments.GetPaymentStats: the partition of the sum holds only while no out-of-enum status or negative amount has been stored through the update above.
- Payments.FirstForProject: `findOne` without a sort returns the first document in MongoDB's natural order, which is not guaranteed to be insertion order. The model fixes it as the payment with the least id, so Payments.GetPaymentByProject answers with that one.
- Payments.GetPayments: returns the matching payments as a map, without the newest-first order of `sort({ createdAt: -1 })`.
- Payment amounts are natural numbers (minor units); floating-point amounts and summation are not modelled.
- Timestamps and `Date.now` are the store's logical clock; `createdAt` of a message equals its id.
- Text.Lower: only ASCII letters are lowered; the full Unicode case mapping of `toLowerCase` is not modelled.
- The parallel reads in getDashboardStats are modelled as one computation over a snapshot of the store.
