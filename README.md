# Portfolio back office and public site, modelled in Dafny

This project models the logic of a personal portfolio system. It has three
parts:

- an Express/MongoDB **backend**:
  - the project, skill, contact and auth controllers;
  - the `protect` middleware;
  - the three routers;
  - the Skill schema.
- a React **admin client**:
  - its API layer with the token interceptor and the multipart project bodies;
  - the session provider;
  - the Projects, Skills, Messages and Dashboard pages.
- the public **frontend**:
  - its API helpers;
  - the Projects and Skills sections;
  - the hero section's typewriter hook.

Each MongoDB collection is a sequence of records in insertion order with
distinct ids (`Table`). A listing's `sort` clause is a sort on a
lexicographic key (`Ordering`). Each controller is written twice:

- pure functions that give the reply and the collection afterwards;
- a class whose methods change the collection in place and are proved to
  agree with those functions, while keeping the store invariant.

Things the code reaches but cannot see are parameters:

- the Project, Contact and Admin schemas' validators (`accepts`);
- JSON Web Token signing and verification (`sign`, `verify`);
- the password comparison (`matches`);
- the clock (`now`);
- the reply of every network call (`Option`, with `None` for a failed request).

The admin and public pages are classes over their React state. Each handler
is a method whose contract gives the new state.

The server keeps empty entries when it splits a technologies string
(`"a,,b"` stores three entries, one of them empty); only the admin client
drops them.

## Model

| member | source | states |
|---|---|---|
| Js.SplitJoin | backend/controllers/projectController.js:47 | splitting on ',' the text the admin client joined with ',' gives the list back when no entry holds a comma |
| Js.Split | backend/controllers/projectController.js:47 | `split(',')` gives one more piece than there are commas, none of them holding a comma |
| Js.JoinSplit | admin/src/api.js:38 | joining the pieces of a split with the same separator gives the original text |
| Js.Trim | backend/controllers/projectController.js:47 | `trim` returns a text with no blank at either end, no longer than its argument |
| Js.TrimChars | backend/controllers/projectController.js:47 | trimming only removes characters, so a trimmed piece of a comma split holds no comma |
| Js.ParseInt | admin/src/pages/Skills.jsx:272 | `parseInt` fails exactly when no digit follows the leading blanks and an optional sign |
| Js.NatToStringValue | admin/src/pages/Projects.jsx:338 | the decimal text of a number reads back as that number |
| Js.ParseIntOfIntToString | admin/src/pages/Projects.jsx:338 | `parseInt` reads back every integer `String` writes |
| Table.Find | backend/controllers/skillController.js:33 | `findById` finds a record exactly when one has the id, and returns a stored record with that id |
| Table.FindUnique | backend/controllers/skillController.js:69 | with distinct ids, `findById` returns the one record carrying the id |
| Table.RemoveOne | backend/controllers/skillController.js:95 | `findByIdAndDelete` of a present id drops exactly that record and keeps the rest in order |
| Table.RemoveLeavesNoId | backend/controllers/contactController.js:83 | after `findByIdAndDelete` no record carries the id |
| Table.RemoveKeeps | backend/controllers/contactController.js:83 | deletion only keeps records that were stored and keeps ids distinct |
| Table.ReplaceOne | backend/controllers/skillController.js:74-77 | `findByIdAndUpdate` of a present id rewrites exactly its one position |
| Table.Replace | backend/controllers/contactController.js:59-63 | an update by id rewrites exactly the records with that id and keeps every other record in place |
| Ordering.SortBy | backend/controllers/skillController.js:8 | a listing is a permutation of the collection, sorted by its key |
| Ordering.Insert | backend/controllers/projectController.js:14 | inserting into a sorted listing keeps it sorted and adds exactly that record |
| Grouping.GroupedHoldsMembers | admin/src/pages/Skills.jsx:97-102 | the `reduce` makes a group exactly for each key that occurs, holding exactly the elements with that key in input order, never empty |
| Grouping.Members | admin/src/pages/Skills.jsx:97-102 | a group holds only elements with its key, never more than the input |
| Grouping.EveryElementIsGrouped | frontend/src/components/SkillsSection.jsx:51-56 | every element lands in the group of its own key |
| Grouping.KeyOrderIsFirstOccurrence | frontend/src/components/SkillsSection.jsx:51-56 | the order in which the `reduce` creates groups names every key that occurs, each once, in the order of its first occurrence |
| Grouping.GroupSizesCount | admin/src/pages/Skills.jsx:134-136 | over distinct keys that name every key occurring, the group sizes add up to the number of elements |
| Grouping.GroupBy | admin/src/pages/Skills.jsx:97-102 | the loop that creates missing groups and pushes each element builds the grouping `Grouped` specifies, and records the order the groups are created in as `KeyOrder` |
| SkillSchema.ParseCategory | backend/models/Skill.js:9-14 | the `enum` validator accepts a string exactly when it names one of the five categories |
| SkillSchema.NamePath | backend/models/Skill.js:4-8 | `name` is stored trimmed, and is refused as missing exactly when it trims to "" |
| SkillSchema.CategoryPath | backend/models/Skill.js:9-14 | `category` is accepted exactly when it is one of the five names, and is stored as that name |
| SkillSchema.ProficiencyPath | backend/models/Skill.js:19-24 | `proficiency` is accepted exactly when it lies within 0..100, and is then stored unchanged |
| SkillSchema.Build | backend/models/Skill.js:3-31 | creation passes exactly when the name is non-blank, the category is in the enum and the proficiency is within 0..100; what passes conforms to the schema; a failure names at least one violation |
| SkillSchema.BuildStores | backend/models/Skill.js:9-28 | an accepted document stores the trimmed name and the given values, with "other", "", 50 and 0 for absent paths |
| SkillSchema.Update | backend/controllers/skillController.js:74-77 | an update with `runValidators` checks only the paths the body sets; those take the body's value (name trimmed), and every other path keeps its stored value |
| SkillSchema.EmptyUpdateKeepsFields | backend/controllers/skillController.js:74-77 | an update setting no path leaves the skill unchanged |
| SkillController.CategoryRankIsNameOrder | backend/controllers/skillController.js:8 | ranking categories is the same as comparing their stored names in code-point order |
| SkillController.ListSkills | backend/controllers/skillController.js:8 | `getSkills` returns every skill once, by category name, then by order |
| SkillController.OfCategory | backend/controllers/skillController.js:21 | the filter keeps exactly the skills whose category string equals the parameter |
| SkillController.ListByCategory | backend/controllers/skillController.js:21 | `getSkillsByCategory` returns a permutation of the filtered skills, sorted by order |
| SkillController.ListByCategoryMembers | backend/controllers/skillController.js:21 | a skill is listed under a category exactly when it is stored with that category |
| SkillController.CreateDefaults | backend/controllers/skillController.js:54-55 | a created skill stores proficiency 50 whenever the body's value is falsy, including 0, and order 0 when absent; so it never stores proficiency 0 |
| SkillController.CreateAppendsOrRejects | backend/controllers/skillController.js:50-61 | create either answers 201 and appends exactly the new skill, or answers 400 with its violations and writes nothing |
| SkillController.UnknownIdIsNotFound | backend/controllers/skillController.js:69-72 | an unknown id makes get, update and delete answer 404 and change nothing |
| SkillController.UpdateOnlyTouchesBodyPaths | backend/controllers/skillController.js:69-82 | a successful update rewrites only the addressed skill, and in it only the paths the body sets, keeping id and `createdAt`; a rejected update writes nothing |
| SkillController.DeleteRemovesExactlyOne | backend/controllers/skillController.js:90-96 | delete removes exactly the skill with that id and keeps the others in order |
| SkillController.CreateKeepsInvariant | backend/controllers/skillController.js:50-56 | create keeps ids distinct and below the counter, and every stored skill conforming |
| SkillController.UpdateKeepsInvariant | backend/controllers/skillController.js:74-77 | update keeps the store invariant |
| SkillController.RewriteKeepsInvariant | backend/controllers/skillController.js:74-77 | rewriting one skill with a conforming one of the same id keeps the invariant |
| SkillController.DeleteKeepsInvariant | backend/controllers/skillController.js:95 | delete keeps the store invariant |
| SkillController.SkillStore.constructor | backend/models/Skill.js:3-31 | the collection starts empty and valid |
| SkillController.SkillStore.List | backend/controllers/skillController.js:6-14 | the listing handler returns `ListSkills` of the stored collection |
| SkillController.SkillStore.ListCategory | backend/controllers/skillController.js:19-26 | the category handler returns `ListByCategory` of the stored collection |
| SkillController.SkillStore.Get | backend/controllers/skillController.js:31-41 | the lookup handler answers what `GetSkill` specifies |
| SkillController.SkillStore.Create | backend/controllers/skillController.js:46-62 | the create handler changes the collection as `CreateSkill` specifies, advances the id counter only on success, and keeps the invariant |
| SkillController.SkillStore.Update | backend/controllers/skillController.js:67-83 | the update handler changes the collection as `UpdateSkill` specifies and keeps the invariant |
| SkillController.SkillStore.Delete | backend/controllers/skillController.js:88-100 | the delete handler changes the collection as `DeleteSkill` specifies and keeps the invariant |
| ProjectController.TechnologiesFromText | backend/controllers/projectController.js:47 | a technologies string gives one trimmed, comma-free entry per comma-separated piece, empty pieces included |
| ProjectController.TechnologiesFallback | backend/controllers/projectController.js:81 | an absent or empty technologies value falls back (`[]` on create, the stored list on update); a list is stored unchanged |
| ProjectController.FeaturedOnlyForTrue | backend/controllers/projectController.js:50 | a project is featured exactly for the string "true" or the boolean true; an omitted field, "false", "TRUE" and 1 do not feature it |
| ProjectController.NumeralValue | backend/controllers/projectController.js:51 | of the integer numerals, a trimmed text casts exactly when it is an optional sign followed by digits; the other texts `Number()` accepts are listed under Left out |
| ProjectController.OrderTextIsCast | backend/controllers/projectController.js:85 | the order text `String(n)` the admin form sends, 0 included, casts back to `n`, so the server stores exactly that order |
| ProjectController.FalsyOrderFallsBack | backend/controllers/projectController.js:85 | an absent, 0, "" or false order gives the fallback: 0 on create, and the stored order on update even when 0 was asked for |
| ProjectController.TruthyOrderIsCast | backend/controllers/projectController.js:51 | a non-zero number is stored as given, and the text "0" sets order 0 |
| ProjectController.WordOrderDoesNotCast | backend/controllers/projectController.js:85 | a trimmed word starting with none of a sign, a digit, a point or the "I" of "Infinity" fails the order cast |
| ProjectController.UploadPath | backend/controllers/projectController.js:56 | an uploaded file is stored under "/uploads/" followed by its name |
| ProjectController.ListProjects | backend/controllers/projectController.js:14 | `getProjects` returns every project once, by order, newest first among equal orders |
| ProjectController.UnknownIdIsNotFound | backend/controllers/projectController.js:116-119 | an unknown id makes get, update (as written and corrected) and delete answer 404 and change neither the collection nor the upload directory |
| ProjectController.CreateStores | backend/controllers/projectController.js:40-64 | create appends exactly the accepted project or answers 400; the new project has the given id, the body's title, description and links, technologies split and trimmed from a string (`[]` when falsy), featured from the body, order `order \|\| 0`, the image exactly when a file came, and both timestamps at the creation time |
| ProjectController.UpdateStores | backend/controllers/projectController.js:69-109 | a successful update rewrites only the addressed project, keeping its id and creation time and setting the update time; a text field the body sets takes the body's value and an absent one keeps the stored value; technologies and order are normalised against the stored ones, so absent technologies and a falsy order keep their values; featured is reset unless the body says true; the image and the directory change only with a file |
| ProjectController.DeleteRemovesProjectAndImage | backend/controllers/projectController.js:114-134 | delete removes exactly that project and only its image file |
| ProjectController.AsWrittenUpdateLosesImage | backend/controllers/projectController.js:89-103 | the update as written, given a new file and an order that does not cast, answers 400 yet has unlinked the image the unchanged record still points at |
| ProjectController.CorrectionOnlyChangesRejections | backend/controllers/projectController.js:89-103 | the update as written and the corrected update give the same reply and collection on every request, and the same upload directory whenever the update is accepted, the id is unknown or no file came |
| ProjectController.CreateKeepsInvariant | backend/controllers/projectController.js:55-59 | with a fresh upload, create keeps ids distinct and every stored image a distinct file in the upload directory |
| ProjectController.RewriteKeepsImagesStored | backend/controllers/projectController.js:89-98 | replacing one project's image with a fresh stored file, and unlinking the old one, keeps every image stored |
| ProjectController.RewriteKeepsImagesDistinct | backend/controllers/projectController.js:89-98 | such a rewrite keeps images pairwise distinct |
| ProjectController.RewriteKeepsInvariant | backend/controllers/projectController.js:89-103 | such a rewrite, keeping the id, keeps the store invariant |
| ProjectController.UpdateKeepsInvariant | backend/controllers/projectController.js:89-103 | the corrected update, which unlinks only after acceptance, keeps the store invariant on every outcome |
| ProjectController.CutIndex | backend/controllers/projectController.js:129 | position i of the collection after deleting position k is the old position i, or i + 1 from k onwards |
| ProjectController.CutKeepsImagesDistinct | backend/controllers/projectController.js:122-129 | deleting one project keeps the others' images distinct |
| ProjectController.CutKeepsImagesStored | backend/controllers/projectController.js:122-129 | deleting one project and its image keeps every other image stored |
| ProjectController.DeleteKeepsInvariant | backend/controllers/projectController.js:114-134 | delete keeps the store invariant |
| ProjectController.ProjectStore.constructor | backend/controllers/projectController.js:12-20 | the collection starts empty over the given upload directory |
| ProjectController.ProjectStore.List | backend/controllers/projectController.js:12-20 | the listing handler returns `ListProjects` of the stored collection |
| ProjectController.ProjectStore.Get | backend/controllers/projectController.js:25-35 | the lookup handler answers what `GetProject` specifies |
| ProjectController.ProjectStore.Create | backend/controllers/projectController.js:40-64 | the create handler changes the collection as `CreateProject` specifies and keeps the invariant |
| ProjectController.ProjectStore.Update | backend/controllers/projectController.js:69-109 | the update handler changes the collection and the directory as the corrected `UpdateProject` specifies and keeps the invariant |
| ProjectController.ProjectStore.Delete | backend/controllers/projectController.js:114-134 | the delete handler unlinks the image, then removes the record, as `DeleteProject` specifies, keeping the invariant |
| ContactController.ListContacts | backend/controllers/contactController.js:32 | `getContacts` returns every message once, newest first |
| ContactController.SubmitIgnoresOtherKeys | backend/controllers/contactController.js:8-15 | a submission depends only on name, email, subject and message; a sender cannot set `read` |
| ContactController.SubmitAppendsOrRejects | backend/controllers/contactController.js:10-24 | a submission answers 201 and appends one message exactly when the schema accepts it, else 400 with nothing written |
| ContactController.UnknownIdIsNotFound | backend/controllers/contactController.js:44-47 | an unknown id makes get, mark-as-read and delete answer 404 and change nothing |
| ContactController.MarkAsReadSetsOne | backend/controllers/contactController.js:59-67 | marking sets `read` to true on that message alone and returns the updated message |
| ContactController.MarkAsReadIdempotent | backend/controllers/contactController.js:59-63 | marking twice answers and stores the same as marking once |
| ContactController.DeleteRemovesExactlyOne | backend/controllers/contactController.js:78-84 | delete removes exactly that message and keeps the others in order |
| ContactController.SubmitKeepsInvariant | backend/controllers/contactController.js:10-15 | a submission keeps ids distinct and below the advanced counter |
| ContactController.MarkKeepsInvariant | backend/controllers/contactController.js:59-63 | marking keeps every id |
| ContactController.DeleteKeepsInvariant | backend/controllers/contactController.js:83 | delete keeps ids distinct and below the counter |
| ContactController.ContactStore.constructor | backend/controllers/contactController.js:30-37 | the collection starts empty and valid |
| ContactController.ContactStore.List | backend/controllers/contactController.js:30-37 | the listing handler returns `ListContacts` of the stored collection |
| ContactController.ContactStore.Get | backend/controllers/contactController.js:42-52 | the lookup handler answers what `GetContact` specifies |
| ContactController.ContactStore.Submit | backend/controllers/contactController.js:6-25 | the submission handler changes the collection as `SubmitContact` specifies and keeps the invariant |
| ContactController.ContactStore.MarkRead | backend/controllers/contactController.js:57-71 | the mark-as-read handler changes the collection as `MarkAsRead` specifies and keeps the invariant |
| ContactController.ContactStore.Delete | backend/controllers/contactController.js:76-88 | the delete handler changes the collection as `DeleteContact` specifies and keeps the invariant |
| AuthController.ProfileOf | backend/controllers/authController.js:92 | the profile carries the admin's id, username and email and no password |
| AuthController.TokenClaims | backend/controllers/authController.js:5-9 | a token is signed for the admin's id and expires 30 days (2592000 seconds) after issue |
| AuthController.FindByEmail | backend/controllers/authController.js:56 | `findOne({ email })` returns a stored admin with that email, and nothing only when no admin has it |
| AuthController.GetProfile | backend/controllers/authController.js:92 | the profile is found exactly when an admin has the id, and is that stored admin's id, username and email, without the password |
| AuthController.RegisterRejectsDuplicates | backend/controllers/authController.js:19-32 | registration answers "Admin already exists" exactly when an admin has that email or username; it inserts exactly the new admin on success and nothing otherwise |
| AuthController.SessionNamesTheAdmin | backend/controllers/authController.js:34-42 | register and login return the admin's id, username and email with a token signed for that id, valid for 30 days |
| AuthController.LoginFailuresAreIndistinguishable | backend/controllers/authController.js:57-71 | an unknown email and a wrong password both get the same 401 "Invalid credentials" |
| AuthController.RegisterKeepsInvariant | backend/controllers/authController.js:19-32 | registration keeps ids, emails and usernames unique |
| AuthController.LoginChecksTheAccount | backend/controllers/authController.js:56-81 | with unique emails, login succeeds exactly when the password matches the account with that email |
| AuthController.AdminStore.constructor | backend/controllers/authController.js:14-46 | the account collection starts empty and valid |
| AuthController.AdminStore.RegisterAdmin | backend/controllers/authController.js:14-46 | the duplicate scan and the insert change the collection as `Register` specifies and keep it unique |
| AuthController.AdminStore.LoginAdmin | backend/controllers/authController.js:51-85 | the lookup loop answers what `Login` specifies |
| AuthController.AdminStore.Profile | backend/controllers/authController.js:90-97 | the profile handler answers what `GetProfile` specifies |
| AuthMiddleware.ExtractToken | backend/middleware/authMiddleware.js:8-10 | a token is taken only from a header starting with "Bearer", and is a non-empty single word |
| AuthMiddleware.BearerHeaderGivesToken | backend/middleware/authMiddleware.js:8-10 | "Bearer " + token gives back the token when it is one non-empty word |
| AuthMiddleware.MissingTokenIsRefused | backend/middleware/authMiddleware.js:8-17 | no header, a header not starting with "Bearer", or one whose second space-separated word is missing or empty ("Bearer", "Bearer ", "Bearer  x") is refused as "no token provided" |
| AuthMiddleware.DecisionFollowsToken | backend/middleware/authMiddleware.js:20-38 | a bearer token is refused as failed exactly when it does not verify or has expired, as "admin not found" exactly when its admin is gone, and passes with that admin's profile otherwise |
| AuthMiddleware.IssuedTokenPasses | backend/middleware/authMiddleware.js:20-32 | a token issued for a stored admin passes exactly for 30 days, naming that admin |
| AuthMiddleware.Exchange.constructor | backend/middleware/authMiddleware.js:4 | a request starts with no admin, no response and `next` not called |
| AuthMiddleware.Exchange.Protect | backend/middleware/authMiddleware.js:4-39 | `next()` is called exactly when `Decide` passes, with `req.admin` set; otherwise exactly one 401 with the matching message is written |
| Routes.Dispatch | backend/routes/skillRoutes.js:15-22 | a request goes to a registration that matches it, and to none only when none matches |
| Routes.DispatchIsFirst | backend/routes/skillRoutes.js:16-17 | the registration chosen is the first that matches |
| Routes.TablesGuardWrites | backend/routes/projectRoutes.js:15-21 | in the project and skill tables exactly the non-GET routes start with `protect`; in the contact table only POST / skips it; no upload runs before `protect` |
| Routes.DispatchedSatisfies | backend/routes/contactRoutes.js:14-20 | what every registration of a table has, the dispatched one has |
| Routes.WritesAreGuarded | backend/routes/skillRoutes.js:15-22 | every project or skill request other than a GET passes `protect` first, and every GET is public |
| Routes.NoUploadWithoutProtect | backend/routes/projectRoutes.js:19-20 | no request reaches the image upload without `protect` |
| Routes.OnlySubmissionIsPublic | backend/routes/contactRoutes.js:14-20 | the only contact request that skips `protect` is POST / |
| Routes.ProjectListRoute | backend/routes/projectRoutes.js:15 | GET / reaches getProjects with no middleware |
| Routes.ProjectGetRoute | backend/routes/projectRoutes.js:16 | GET /:id reaches getProject with no middleware |
| Routes.ProjectCreateRoute | backend/routes/projectRoutes.js:19 | POST / runs protect, then the upload, then createProject |
| Routes.ProjectUpdateRoute | backend/routes/projectRoutes.js:20 | PUT /:id runs protect, then the upload, then updateProject |
| Routes.ProjectDeleteRoute | backend/routes/projectRoutes.js:21 | DELETE /:id runs protect, then deleteProject |
| Routes.SkillListRoute | backend/routes/skillRoutes.js:15 | GET / reaches getSkills with no middleware |
| Routes.SkillByCategoryRoute | backend/routes/skillRoutes.js:16 | GET /category/:category reaches getSkillsByCategory, ahead of GET /:id |
| Routes.SkillGetRoute | backend/routes/skillRoutes.js:17 | GET /:id reaches getSkill with no middleware |
| Routes.SkillCreateRoute | backend/routes/skillRoutes.js:20 | POST / runs protect, then createSkill |
| Routes.SkillUpdateRoute | backend/routes/skillRoutes.js:21 | PUT /:id runs protect, then updateSkill |
| Routes.SkillDeleteRoute | backend/routes/skillRoutes.js:22 | DELETE /:id runs protect, then deleteSkill |
| Routes.ContactSubmitRoute | backend/routes/contactRoutes.js:14 | POST / reaches submitContact with no middleware |
| Routes.ContactListRoute | backend/routes/contactRoutes.js:17 | GET / runs protect, then getContacts |
| Routes.ContactGetRoute | backend/routes/contactRoutes.js:18 | GET /:id runs protect, then getContact |
| Routes.ContactMarkReadRoute | backend/routes/contactRoutes.js:19 | PUT /:id/read runs protect, then markAsRead |
| Routes.ContactDeleteRoute | backend/routes/contactRoutes.js:20 | DELETE /:id runs protect, then deleteContact |
| AdminApi.InterceptorSetsBearer | admin/src/api.js:13-19 | the Authorization header is "Bearer " + token exactly when a token is stored; no other header changes |
| AdminApi.RequestConfig.constructor | admin/src/api.js:5-10 | a request starts with the headers given |
| AdminApi.RequestConfig.Intercept | admin/src/api.js:13-19 | the interceptor leaves the headers `Intercepted` specifies |
| AdminApi.CreateForm | admin/src/api.js:32-46 | the create body has one part per key |
| AdminApi.UpdateForm | admin/src/api.js:47-61 | the update body has at most one part per key |
| AdminApi.CreateAppendsEveryKey | admin/src/api.js:34-42 | create appends every key in order, each as the part its value makes, a file exactly for a file value |
| AdminApi.UpdateSkipsNullish | admin/src/api.js:49-57 | update sends what create would send for the keys whose value is neither null nor undefined, in order |
| AdminApi.TechnologiesJoined | admin/src/api.js:37-38 | a technologies list travels as one text part, its entries joined with ',' |
| AdminApi.BuildCreateForm | admin/src/api.js:32-46 | the appending loop builds exactly `CreateForm` |
| AdminApi.BuildUpdateForm | admin/src/api.js:47-61 | the appending loop builds exactly `UpdateForm` |
| AdminApi.EndpointsReachTheirHandlers | admin/src/api.js:78-79 | mark-as-read and contact delete reach the backend's handlers behind `protect`; project create and update reach theirs behind `protect` and the upload |
| AdminAuth.Initial | admin/src/AuthContext.jsx:6-7 | on mount nobody is signed in and the provider is loading |
| AdminAuth.StartupSettles | admin/src/AuthContext.jsx:10-21 | startup always ends loading; a fetched profile becomes the admin; a failed fetch leaves no token; without a token nothing else changes; other stored keys are untouched |
| AdminAuth.SignInAuthorizesRequests | admin/src/AuthContext.jsx:23-28 | after sign-in the admin is the session, and every request carries "Bearer " + its token, which `protect` extracts back; other stored keys are untouched |
| AdminAuth.FailedSignInChangesNothing | admin/src/AuthContext.jsx:30-35 | a failed login or register changes nothing |
| AdminAuth.LogoutSignsOut | admin/src/AuthContext.jsx:37-40 | after logout nobody is signed in and requests go out without a token, which `protect` refuses |
| AdminAuth.AuthSession.constructor | admin/src/AuthContext.jsx:6-7 | the provider starts in the `Initial` state |
| AdminAuth.AuthSession.Startup | admin/src/AuthContext.jsx:10-21 | the profile is fetched exactly when a token is stored, and the state becomes `AfterStartup` |
| AdminAuth.AuthSession.Login | admin/src/AuthContext.jsx:23-28 | the state becomes `AfterSignIn` of the reply |
| AdminAuth.AuthSession.Register | admin/src/AuthContext.jsx:30-35 | the state becomes `AfterSignIn` of the reply |
| AdminAuth.AuthSession.Logout | admin/src/AuthContext.jsx:37-40 | the state becomes `AfterLogout` |
| AdminProjects.DropEmpty | admin/src/pages/Projects.jsx:45 | the filter keeps only non-empty entries that were in the list |
| AdminProjects.ParsedIsWellFormed | admin/src/pages/Projects.jsx:42-45 | every technology the form sends is non-empty, trimmed and free of commas |
| AdminProjects.LeadingSpaceIsTrimmed | admin/src/pages/Projects.jsx:44 | a blank before the first piece changes nothing once the pieces are trimmed |
| AdminProjects.ParseCons | admin/src/pages/Projects.jsx:42-45 | parsing "a, rest" gives `a` followed by the parse of "rest" |
| AdminProjects.ParseFormat | admin/src/pages/Projects.jsx:69 | the text `handleEdit` shows for a well-formed list parses back to that list |
| AdminProjects.ParseIsStable | admin/src/pages/Projects.jsx:42-45 | what a submit sends reads back the same after an edit |
| AdminProjects.EditShowsProject | admin/src/pages/Projects.jsx:66-75 | editing shows the project's own values, missing links as "", no file, and technologies that parse back unchanged |
| AdminProjects.OrderInputReadsNumber | admin/src/pages/Projects.jsx:338 | the order input holds the number typed, and 0 when nothing numeric was typed |
| AdminProjects.SubmitFor | admin/src/pages/Projects.jsx:48-54 | submit updates the project being edited, by its id, and creates otherwise, with the form's data |
| AdminProjects.VisibleBadges | admin/src/pages/Projects.jsx:164 | a card shows the first three technologies at most |
| AdminProjects.BadgesCountEveryTechnology | admin/src/pages/Projects.jsx:164-176 | the "+n" badge appears exactly with more than three technologies, and n plus the shown badges counts them all |
| AdminProjects.ProjectsPage.constructor | admin/src/pages/Projects.jsx:10-20 | the page starts with nothing edited and the empty form |
| AdminProjects.ProjectsPage.Edit | admin/src/pages/Projects.jsx:64-77 | editing sets the project and the form `EditForm` gives |
| AdminProjects.ProjectsPage.Reset | admin/src/pages/Projects.jsx:91-103 | reset clears the edited project and restores the empty form |
| AdminProjects.ProjectsPage.SetOrder | admin/src/pages/Projects.jsx:335-339 | the order input changes only the form's order, to `parseInt(value) \|\| 0` |
| AdminProjects.ProjectsPage.Submit | admin/src/pages/Projects.jsx:37-62 | submit sends the request `SubmitFor` gives, and resets the form exactly on success |
| AdminMessages.MarkedRead | admin/src/pages/Messages.jsx:31-35 | the local update marks exactly the messages with that id read and keeps every other message and every id |
| AdminMessages.UnreadOnes | admin/src/pages/Messages.jsx:78 | the unread filter keeps only listed messages not marked read |
| AdminMessages.UnreadConcat | admin/src/pages/Messages.jsx:78 | the unread count of two lists together is the sum of their counts |
| AdminMessages.UnreadCountsUnmarked | admin/src/pages/Messages.jsx:78 | unread and read messages together are all the messages |
| AdminMessages.MarkingCountsDown | admin/src/pages/Messages.jsx:28-35 | marking a message lowers the unread counter by one exactly when it was unread |
| AdminMessages.MarkingUnknownIdChangesNothing | admin/src/pages/Messages.jsx:31-35 | marking an id no message has leaves the list as it was |
| AdminMessages.MarkingIsIdempotent | admin/src/pages/Messages.jsx:31-35 | marking the same message twice is marking it once |
| AdminMessages.DeletingOne | admin/src/pages/Messages.jsx:48 | the delete filter drops exactly that message, keeps the rest in order, and lowers the counter by one exactly when it was unread |
| AdminMessages.MessagesPage.constructor | admin/src/pages/Messages.jsx:7-9 | the page starts empty, loading, with no message open |
| AdminMessages.MessagesPage.Fetched | admin/src/pages/Messages.jsx:15-24 | a fetch sets the list on success, keeps it on failure, and stops loading either way |
| AdminMessages.MessagesPage.View | admin/src/pages/Messages.jsx:26-40 | viewing opens the message, calls mark-as-read exactly for an unread one, and marks it locally only when that call succeeds |
| AdminMessages.MessagesPage.Delete | admin/src/pages/Messages.jsx:42-53 | delete calls the API exactly when confirmed, and on success drops the message and closes the panel if it showed it |
| AdminDashboard.ComputeStats | admin/src/pages/Dashboard.jsx:24-29 | the counters are the three list lengths and an unread count no larger than the messages |
| AdminDashboard.DashboardCountsUnread | admin/src/pages/Dashboard.jsx:28 | the dashboard's unread counter is the messages not marked read, and all of them when none is |
| AdminDashboard.NoneRead | admin/src/pages/Dashboard.jsx:28 | with no message marked read, no message counts as read |
| AdminDashboard.Dashboard.constructor | admin/src/pages/Dashboard.jsx:6-12 | the counters start at zero, loading |
| AdminDashboard.Dashboard.Fetched | admin/src/pages/Dashboard.jsx:14-38 | new counters when all requests succeed, the old ones otherwise; loading stops either way |
| AdminSkills.CategoriesAreTheSchemas | admin/src/pages/Skills.jsx:6-12 | the page offers exactly the schema's categories |
| AdminSkills.CategoryValuesAreDistinct | admin/src/pages/Skills.jsx:6-12 | each category is offered once |
| AdminSkills.EditForm | admin/src/pages/Skills.jsx:63-69 | the edit form shows the skill's own values, with a missing icon as "" |
| AdminSkills.FormCreatesSkill | admin/src/pages/Skills.jsx:42-51 | a form with a non-blank name and an offered category creates a skill with the trimmed name, that category and the slider's proficiency, except that 0 is stored as 50 |
| AdminSkills.BlankNameIsRefused | admin/src/pages/Skills.jsx:42-51 | a blank name is refused by the schema |
| AdminSkills.Displayed | admin/src/pages/Skills.jsx:134-136 | the sections shown are at most one per category, none of them empty |
| AdminSkills.GroupOfIsMembers | admin/src/pages/Skills.jsx:135 | the group looked up for a category holds exactly that category's skills, in API order |
| AdminSkills.DisplayedSizes | admin/src/pages/Skills.jsx:134-136 | the sections shown hold as many skills as the groups of the listed categories |
| AdminSkills.DisplayShowsEverySkill | admin/src/pages/Skills.jsx:134-136 | when every skill has an offered category, the sections shown hold every skill |
| AdminSkills.DisplayedCountsAll | admin/src/pages/Skills.jsx:134-136 | over distinct categories covering every skill, the sections hold every skill |
| AdminSkills.SkillsPage.constructor | admin/src/pages/Skills.jsx:15-25 | the page starts empty, loading, with the default form |
| AdminSkills.SkillsPage.Fetched | admin/src/pages/Skills.jsx:31-40 | a fetch sets the list on success, keeps it on failure, and stops loading either way |
| AdminSkills.SkillsPage.Render | admin/src/pages/Skills.jsx:97-136 | the rendered sections are `Sections` of the list |
| AdminSkills.SkillsPage.Edit | admin/src/pages/Skills.jsx:61-71 | editing sets the skill and its `EditForm` |
| AdminSkills.SkillsPage.Reset | admin/src/pages/Skills.jsx:85-94 | reset clears the edited skill and restores the default form |
| AdminSkills.SkillsPage.SetProficiency | admin/src/pages/Skills.jsx:264-273 | the slider sets the proficiency to its position, which the schema accepts |
| AdminSkills.SkillsPage.SetOrder | admin/src/pages/Skills.jsx:286-290 | the order input changes only the order, to `parseInt(value) \|\| 0` |
| AdminSkills.SkillsPage.Submit | admin/src/pages/Skills.jsx:42-59 | submit updates the edited skill or creates one with the form, and resets exactly on success |
| PublicApi.ChooseUrl | frontend/src/lib/api.js:2-10 | the environment value is used exactly when it is set, non-empty and free of "localhost", the production address otherwise |
| PublicApi.Unwrap | frontend/src/lib/api.js:12-24 | the list is returned when the reply says success, `[]` when it does not or when anything threw |
| PublicApi.UnwrapIsAllOrNothing | frontend/src/lib/api.js:26-38 | the caller sees either the whole served list or nothing |
| PublicApi.SubmitResult | frontend/src/lib/api.js:40-55 | the server's reply is passed through, and a failed request gives "Failed to send message" |
| PublicApi.SuccessMeansStored | frontend/src/lib/api.js:49-53 | the visitor is told of success exactly when the message was stored |
| PublicSections.WithGradients | frontend/src/components/ProjectsSection.jsx:68-71 | every project gets one card |
| PublicSections.GradientsByPosition | frontend/src/components/ProjectsSection.jsx:68-71 | card i keeps its project's fields and gets gradient i mod 4 |
| PublicSections.ShownCardsCycleGradients | frontend/src/components/ProjectsSection.jsx:64-77 | the API's projects are all shown in order, with neighbours never sharing a gradient; an empty list or a failed fetch shows the four defaults; loading ends |
| PublicSections.NeighbourGradientsDiffer | frontend/src/components/ProjectsSection.jsx:50-55 | cards coloured by position mod 4 never share a gradient with their neighbour |
| PublicSections.Label | frontend/src/components/SkillsSection.jsx:52 | a known category shows its label, any other its own name |
| PublicSections.SchemaCategoriesAreLabelled | frontend/src/components/SkillsSection.jsx:32-38 | every schema category has its capitalised label |
| PublicSections.ShownSkillsAreGroupedByLabel | frontend/src/components/SkillsSection.jsx:49-57 | a non-empty list shows a group exactly for each label occurring, holding exactly those skills in order, and the groups hold every skill |
| PublicSections.ShownOrderFollowsFirstOccurrence | frontend/src/components/SkillsSection.jsx:51-57 | the groups are laid out each once and all of them, those of a non-empty list in the order their labels first occur in it |
| PublicSections.EmptyListShowsDefaults | frontend/src/components/SkillsSection.jsx:58-60 | an empty list or a failed fetch shows the three default groups of six |
| PublicSections.SkillsSection.constructor | frontend/src/components/SkillsSection.jsx:43-44 | the section starts with no groups, so nothing to lay out, and loading |
| PublicSections.SkillsSection.Load | frontend/src/components/SkillsSection.jsx:47-62 | loading stores `ShownSkills` of the list, together with `ShownOrder`, the order `Object.entries` lays the groups out in, and ends |
| Typewriter.Step | Anuj-verma-portfolio/src/components/HeroSection.jsx:28-43 | a tick keeps the word index within the list |
| Typewriter.StepKeepsConsistent | Anuj-verma-portfolio/src/components/HeroSection.jsx:28-43 | every tick keeps the shown text a prefix of the current word: typing adds its next character, a full word starts deleting, deleting drops the last character, nothing left moves to the next word |
| Typewriter.StartIsConsistent | Anuj-verma-portfolio/src/components/HeroSection.jsx:19-21 | the initial state is consistent for any non-empty word list |
| Typewriter.RunAdds | Anuj-verma-portfolio/src/components/HeroSection.jsx:23-47 | a + b ticks are a ticks followed by b ticks |
| Typewriter.RunKeepsConsistent | Anuj-verma-portfolio/src/components/HeroSection.jsx:23-47 | consistency holds after any number of ticks |
| Typewriter.TypingShowsPrefix | Anuj-verma-portfolio/src/components/HeroSection.jsx:30-31 | k ticks after a word starts, its first k characters show |
| Typewriter.DeletingShortens | Anuj-verma-portfolio/src/components/HeroSection.jsx:38-39 | k ticks after deletion starts, k characters are gone |
| Typewriter.WordCycle | Anuj-verma-portfolio/src/components/HeroSection.jsx:28-43 | a word takes 2·length + 2 ticks, and then the next word, cyclically, starts from nothing |
| Typewriter.TypewriterHook.constructor | Anuj-verma-portfolio/src/components/HeroSection.jsx:19-21 | the hook starts at the first word with nothing shown |
| Typewriter.TypewriterHook.Tick | Anuj-verma-portfolio/src/components/HeroSection.jsx:26-47 | the timeout callback moves the state one `Step` and keeps it consistent |

## Left out

- MongoDB itself: persistence, the driver, ObjectId generation (ids come from a counter), `timestamps` beyond the creation and update times, and the 500 replies a failed query gives.
- The Project, Contact and Admin schemas: they are not part of this model. Their validators are the `accepts` oracle, and a new message's `read` default is not assumed.
- Mongoose casting of mistyped skill fields (a number for `name`, a numeric string for `proficiency`, `null`); skill bodies are typed.
- ProjectController.NumeralValue: the project order is cast only from integer numerals; texts that JavaScript's `Number()` also accepts (floats such as "1.5" or ".5", hex "0x10", exponents "1e3", "Infinity" and "-Infinity") fail the cast in the model, where the program would store them; orders are integers in the model.
- ProjectController.Updated: an update keeps the stored value of every key the body leaves out. This assumes a Mongoose version (6 or later) that drops `undefined` keys from `findByIdAndUpdate`; under Mongoose 5 without `omitUndefined` those keys would be set to null.
- Routes.Dispatch: path literals are matched exactly; Express's case-insensitive, trailing-slash-tolerant matching is not modelled (GET /CATEGORY/frontend reaches the category handler in Express but matches nothing here).
- AuthController.Register: a rejected account answers the fixed text `ValidationMessage` in place of Mongoose's `error.message`, whose wording depends on the Admin schema.
- Password hashing and comparison, and JSON Web Token encoding: oracles (`matches`, `sign`, `verify`). The secret and the clock are parameters.
- The upload middleware (multer): its filename scheme and file filter. `ProjectController.FreshUpload` states what it guarantees. The `fs` calls are a set of stored paths.
- ProjectController.ProjectStore.Create: requires a fresh upload, which the upload step guarantees rather than the controller checking it.
- ProjectController.ProjectStore.Update: models the corrected update; the update as written is `ProjectController.UpdateProjectAsWritten` (see Findings).
- White space beyond the characters listed in `Js.IsSpace`, `parseInt` with a radix or hex input, and Unicode beyond code points.
- JavaScript prototype keys in the grouping objects (a category named `constructor`).
- `data.data` being undefined when a reply says success without data.
- Rendering, animation, toasts, the confirm dialog (a parameter), locale date formatting, `Promise.all` concurrency, and overlapping requests.
- Typewriter timers: the typing, deleting and pause delays are not modelled, only the transitions. The pause before deleting is one tick.
- CORS, the server set-up, the `/api/auth` router and `createAdmin.js`; the auth endpoints are modelled through their controller only.
- The admin's `ApiUrl` being fixed to localhost: only the constant is kept.

## Findings

| source | as written | input that shows it | evidently intended | confidence | as-written member | corrected member |
|---|---|---|---|---|---|---|
| backend/controllers/projectController.js:89-103 | the old image is unlinked before the new document is cast and validated, so a rejected update has already deleted the file the unchanged record still points at | a project with image "/uploads/a.png", a new file "b.png", and the body order "abc" | unlink the old image only once the update has been accepted | not executed | ProjectController.AsWrittenUpdateLosesImage | ProjectController.UpdateKeepsInvariant |
