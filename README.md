# ituhouse, modelled in Dafny

ituhouse (小兔书) is a small community site. It has a Next.js frontend and a FastAPI backend over PostgreSQL.
Members post, comment and upload images. Administrators edit the markdown "About" sections, and a super
admin manages roles. This project models three parts of it and proves what each part promises.

- **Frontend state controllers.** Each is a class whose fields are the page's React state:
  - the posts feed, with pagination, de-duplication by id and a comment window;
  - the About-section editor, with its dirty check and confirmation-guarded navigation;
  - the session store;
  - the post composer, the register form and the profile page;
  - the header's scroll machine, and the language and theme providers.

  `window.confirm` answers, awaited HTTP results and `localStorage` are inputs or map-valued fields. Each
  handler is one atomic step.
- **Frontend pure transformers.**
  - `buildHeaders`, and the response and error handling of `apiFetch`;
  - the markdown sanitising schema, width parsing, and the image, link and iframe rules;
  - the djb2 avatar hash, as a loop over 32-bit words;
  - the terms-of-service line classifier;
  - the per-character reveal animation.
- **Backend business rules over an in-memory database.** `Store.Database` holds the five tables and the two
  integer sequences. A commit succeeds only when every column length, unique, check and foreign-key constraint
  of the ORM models holds; otherwise it rolls back.

  The handlers cover request-code, register, login, the post listing, upload, comment, section update and
  role change. Alongside them are modelled:
  - the role gate and token validation;
  - environment parsing;
  - start-up seeding;
  - SMTP failover;
  - the request-body bounds.

  The clock, `uuid4`, `secrets`, bcrypt, the JWT signer and verifier, the SMTP transport and the mail
  configuration file are parameters.

Timestamps are integer seconds. Identifiers are 128-bit numbers with their canonical text. Strings are
sequences of characters; where the source counts UTF-16 units or bytes, the model encodes explicitly.

## Behaviour of the code as written

These are reproduced, not corrected:
- `buildHeaders` adds `Content-Type: application/json` to every request that lacks one. This includes the
  composer's `FormData` upload (`Api.UploadIsLabelledJson`).
- The profile page asks for `page_size=100`, but the listing allows at most 20. The request is always 422 and
  the page never shows the user's posts (`Integration.ProfileShowsNoPosts`).
- Login asks for one row among users matched by address or by username. An identifier that is one user's
  address and another user's username is therefore a server error (`Handlers.LoginAmbiguous`).
- `request_email_code` commits the code before mailing it. In production a failed mail is a 500, but the code
  stays stored.
- The language and theme providers restore any stored string without checking it. An unsupported stored
  language makes `t` fail, unless it names a property every object inherits
  (`Language.UnsupportedStoredLanguageBreaksLookup`). An unknown stored theme leaves the root with neither
  colour-scheme class (`Theme.UnknownStoredThemeLeavesNoScheme`), and one holding whitespace makes the theme
  effect throw before it stores anything (`Theme.ThemeStore.ApplyTheme`).
- backend/main.py imports `ImageUploadResponse`, which backend/app/schemas.py does not define, so importing
  backend/main.py as written raises `ImportError` and that backend does not start. The model uses the
  frontend's record of the same name (url, filename and size), the fields the upload route fills in.
- The About page creates sections with `POST /about/sections` and deletes them with
  `DELETE /about/sections/{slug}`. Neither backend file defines those routes. The model takes the outcome of
  those requests as an input, so it covers both success and failure; the backend side of section creation and
  deletion does not exist to be modelled.
- The older backend/app/main.py has the same handlers as backend/main.py, with two differences: its listing
  has no author filter and it has no upload route. The same members model both files, and
  `Handlers.LegacyListPosts` models the older listing.

## Model

| member | source | states |
|---|---|---|
| Api.Append | frontend/lib/api.ts:11 | adding a header pair keys it by its lower-cased name, stores the value there (joined to an earlier value with ", " when the name was already present) and leaves every other entry alone |
| Api.FromPairsValues | frontend/lib/api.ts:11 | `new Headers(init)` holds a name exactly when some pair gives it, and its value is every value given under that name, in order, joined with ", " |
| Api.FromPairsKeys | frontend/lib/api.ts:11 | `new Headers(init)` holds a name exactly when some given pair names it, in any letter case |
| Api.Headers.constructor | frontend/lib/api.ts:11 | the new headers object holds exactly the entries built from the initial pairs: a name given by some pair, with all its values in order joined with ", " |
| Api.Headers.Has | frontend/lib/api.ts:12 | `has` is true exactly when the lower-cased name is present |
| Api.Headers.Set | frontend/lib/api.ts:13-16 | `set` replaces the entry under the lower-cased name and changes nothing else |
| Api.LowerHeaderNames | frontend/lib/api.ts:12-16 | "Content-Type" and "Authorization" are looked up as "content-type" and "authorization" |
| Api.BuildHeaders | frontend/lib/api.ts:10-19 | the headers built equal the reference function of the token and the caller's headers |
| Api.ContentTypeRule | frontend/lib/api.ts:12-14 | a content type is always present: the caller's when given, else `application/json` |
| Api.AuthorizationRule | frontend/lib/api.ts:15-17 | a non-empty token sets `Bearer <token>`; an absent or empty token keeps the caller's Authorization, if any |
| Api.OtherHeadersPreserved | frontend/lib/api.ts:10-19 | every other header is passed through unchanged and no other header is added |
| Api.UploadIsLabelledJson | frontend/lib/api.ts:12-14 | a request without explicit headers (such as an upload) is labelled `application/json` |
| Api.BaseUrl | frontend/lib/api.ts:1-4 | a non-empty `NEXT_PUBLIC_API_BASE_URL` wins; failing that a non-empty `NEXT_PUBLIC_URL`; the local default only when both are empty or unset; the base URL is never empty |
| Api.SafeParseJson | frontend/lib/api.ts:39-45 | the parsed value when the text is JSON, otherwise the text itself as a string |
| Api.ResponseData | frontend/lib/api.ts:28-29 | an empty body gives `null`, any other body its safely parsed value |
| Api.ErrorMessagePriority | frontend/lib/api.ts:32-33 | the error message is a truthy `detail`, else a truthy `message`, else the status text, else "请求失败" |
| Api.NonObjectBodyUsesStatus | frontend/lib/api.ts:32-33 | a body that is not a JSON object never supplies the message |
| Api.Outcome | frontend/lib/api.ts:28-36 | the call succeeds exactly for a 2xx status, with the response data; otherwise it fails with the error message |
| Api.RequestUrl | frontend/lib/api.ts:23 | the requested URL is the base URL followed by the path, and nothing else |
| Auth.TokenLifetime | backend/app/auth.py:31-33 | a non-zero `expires_delta` is the lifetime; an absent or zero one falls back to the configured minutes |
| Auth.TokenClaims | backend/app/auth.py:34 | the signed payload carries exactly `sub`, `exp` and `role` |
| Auth.CreateAccessToken | backend/app/auth.py:30-35 | the token is the signer applied to a payload of exactly `sub`, `exp` and the role's value, with `exp` the current time plus the lifetime |
| Auth.IntegralNumber | backend/app/auth.py:49 | an integer claim is a JSON number with no fractional part |
| Auth.ReadPayload | backend/app/auth.py:49-51 | reading a payload needs every claim; a read payload's `sub` and `role` are the claims' values |
| Auth.ReadTokenClaims | backend/app/auth.py:30-49 | a freshly signed payload reads back as the subject, expiry and role it was made from |
| Auth.ActiveWithId | backend/app/auth.py:57-59 | the matches are exactly the active users with that identifier |
| Auth.ActiveWithIdUnique | backend/app/auth.py:57-59 | with unique identifiers, an active user is the only match for its identifier |
| Auth.InactiveNotFound | backend/app/auth.py:57-59 | a user who is inactive is never a match |
| Auth.ActiveWithIdAtMostOne | backend/app/auth.py:58 | with unique identifiers at most one user matches, so `one_or_none` never raises |
| Auth.GetCurrentUser | backend/app/auth.py:38-62 | a token that does not decode or lacks a claim gives 401; a user found is stored, active and named by the token's subject |
| Auth.GetCurrentUserRejects | backend/app/auth.py:42-61 | over a consistent users table every rejection is the 401 "Could not validate credentials" |
| Auth.GetCurrentUserFound | backend/app/auth.py:57-62 | no match gives 401 and a single match is the user returned |
| Auth.IssuedTokenAuthenticates | backend/app/auth.py:30-62 | a token issued for an active stored user authenticates that user, whatever role it claims |
| Auth.InactiveUserRefused | backend/app/auth.py:57-61 | a token naming an inactive user is refused with 401 |
| Auth.RequireRoles | backend/app/auth.py:65-76 | the user is admitted iff their role is allowed or they are super admin; otherwise 403 "Insufficient permissions" |
| Auth.Authorize | backend/app/auth.py:65-76 | a protected route authenticates first and checks the role only for an authenticated user |
| Auth.SuperAdminGate | backend/app/auth.py:69 | a super admin passes every gate, and a super-admin-only gate admits nobody else |
| Auth.AuthenticationBeforeRoles | backend/app/auth.py:68-74 | a rejection is 401 or 403, and 403 only for a user who authenticated |
| Avatar.HashStringToInt | frontend/lib/avatar.ts:10-17 | the loop computes the djb2 hash over the UTF-16 code units with 32-bit wrap-around, read unsigned |
| Avatar.AvatarIndex | frontend/lib/avatar.ts:21 | the index is always within the six avatar images |
| Avatar.AvatarFor | frontend/lib/avatar.ts:19-23 | the result is always one of the avatar images, and the first for a missing or empty seed |
| Avatar.GetAvatarSrc | frontend/lib/avatar.ts:19-23 | running the hash loop gives the image the reference function picks |
| Avatar.Djb2Small | frontend/lib/avatar.ts:12-14 | the empty hash is 5381, and one code unit steps it once as `(5381 * 33) ^ c` |
| Config.EnvValue | backend/app/config.py:17-21 | fails exactly for a required variable that is unset with no default; otherwise the variable, else the default, else "" |
| Config.EnvOr | backend/app/config.py:17-21 | a variable with a default gives its value when set and the default otherwise |
| Config.IntEnv | backend/app/config.py:24-26 | unset gives the default; set, it succeeds exactly when `int()` accepts the text, with that integer |
| Config.NonBlankItems | backend/app/config.py:38 | the kept items are non-blank and no more than the pieces |
| Config.NonBlankItemsAvoid | backend/app/config.py:38 | a character no piece contains is in no kept item |
| Config.ListEnv | backend/app/config.py:29-38 | unset or blank gives the default, a lone `*` gives `["*"]`, anything else non-blank items without commas |
| Config.NonBlankItemsOfClean | backend/app/config.py:38 | already stripped non-blank items pass the filter unchanged |
| Config.JoinStripped | backend/app/config.py:33 | stripped non-blank items joined by commas give a string stripping leaves alone |
| Config.ListEnvJoin | backend/app/config.py:29-38 | a list of clean, comma-free items written comma-joined reads back as that list |
| Config.CommasGiveNoOrigins | backend/app/config.py:33-38 | a value of only commas is not blank, so it yields no items rather than the default |
| Config.GetSettings | backend/app/config.py:84-106 | succeeds exactly when the three required variables are set and both integers parse; the first failure is reported; values come from the environment |
| Config.DefaultSettings | backend/app/config.py:87-106 | with only the required variables set, every other setting takes its documented default |
| Config.PortRoundTrip | backend/app/config.py:24-92 | a port written in decimal is read back as that port |
| Config.DatabaseUrl | backend/app/config.py:73-81 | a non-empty override is used as given; otherwise the psycopg URL from the parts |
| Config.PasswordRecoverable | backend/app/config.py:77-81 | the URL's password field decodes back to the password's UTF-8 bytes, whatever it contains |
| Config.CorsOrigins | backend/main.py:61-65 | the allowed origins are never empty, hold `*` only as `["*"]`, and are the configured list otherwise |
| Email.ConfigPath | backend/app/email_service.py:18-19 | a non-empty `EMAIL_SENDERS_FILE` is the path; otherwise the default sender file |
| Email.Accounts | backend/app/email_service.py:34-44 | the kept entries are no more than the list and each holds every required key |
| Email.AccountsMembers | backend/app/email_service.py:35-43 | every kept account is a qualifying entry of the list, and every qualifying entry is kept |
| Email.AccountsOfAccounts | backend/app/email_service.py:35-43 | when every entry qualifies, all are kept, in order |
| Email.SenderAccounts | backend/app/email_service.py:16-32 | a missing file, a file that does not parse, or JSON that is not a list gives no accounts |
| Email.LoadSenderConfigs | backend/app/email_service.py:16-44 | the loop keeps exactly the accounts the reference function selects |
| Email.Truncate | backend/app/email_service.py:49 | conversion of a float to an integer truncates toward zero |
| Email.PyInt | backend/app/email_service.py:49 | `int()` of a JSON value: booleans as 0 or 1, numbers truncated toward zero, strings parsed, null, lists and objects rejected |
| Email.SmtpOptionsOf | backend/app/email_service.py:47-56 | the host as given; a given port is its `int()`, 587 when absent; a given `use_ssl` or `use_tls` is its truthiness, SSL off and TLS-unless-SSL when absent; STARTTLS exactly when TLS without SSL; unusable exactly when the port does not convert |
| Email.SmtpDefaults | backend/app/email_service.py:49-56 | an account naming neither flag upgrades plain SMTP with STARTTLS; SSL never does STARTTLS |
| Email.FromHeader | backend/app/email_service.py:77 | `name <address>` for a non-empty name, else the bare address |
| Email.MessageFor | backend/app/email_service.py:75-81 | the message carries the mail's subject, recipient and body, from the account's address |
| Email.FirstSuccess | backend/app/email_service.py:74-93 | the account used is the first through which sending works; none is found only when every account fails |
| Email.SendEmail | backend/app/email_service.py:61-96 | the loop reports success exactly when some account works, and sends through the first one |
| Email.NoAccountsNoMail | backend/app/email_service.py:70-72 | with no accounts nothing is sent |
| Email.FirstAccountWins | backend/app/email_service.py:83-86 | when the first account works it is used, whatever the others would do |
| Email.FailedAccountSkipped | backend/app/email_service.py:87-93 | a failing account is skipped and the search goes on with the next |
| Email.VerificationSubject | backend/app/email_service.py:100 | the subject begins with the application's name |
| Email.VerificationBody | backend/app/email_service.py:101-107 | the body states the code twice, once in Chinese and once in English |
| Email.VerificationMail | backend/app/email_service.py:99-108 | the mail goes to the address, under the application's name, with the code in its body |
| Email.SendVerificationEmail | backend/app/email_service.py:99-108 | sending succeeds exactly when some configured account delivers the code mail |
| HeaderBar.ToggledTheme | frontend/components/header.tsx:61-63 | the toggle gives light from dark and dark from anything else |
| HeaderBar.ToggledLanguage | frontend/components/header.tsx:65-67 | the toggle gives English from Chinese and Chinese from anything else, always a supported language |
| HeaderBar.ToggleTwice | frontend/components/header.tsx:61-67 | toggling twice from a supported theme or language comes back to it |
| HeaderBar.ScrollState.constructor | frontend/components/header.tsx:20-22 | the header mounts shown, at the top, at offset zero |
| HeaderBar.ScrollState.HandleScroll | frontend/components/header.tsx:29-48 | below offset 10 the header is at the top and shown; further down it shows on a rise of more than 5, hides on a fall of more than 5 and otherwise stays |
| HeaderBar.ToggleTheme | frontend/components/header.tsx:61-63 | the provider's theme becomes the toggled one; its storage, root classes, resolved theme and listener stay until the theme effect runs |
| HeaderBar.ToggleLanguage | frontend/components/header.tsx:65-67 | the provider's language becomes the toggled one and is stored |
| Language.Translate | frontend/components/providers/language-provider.tsx:183-185 | a non-empty translation when there is one, else the key; a language without a table makes the lookup throw (not followed for inherited property names, see Left out) |
| Language.TranslateTotal | frontend/components/providers/language-provider.tsx:15-185 | with a table for each of the two languages every lookup in a supported language succeeds |
| Language.LanguageStore.constructor | frontend/components/providers/language-provider.tsx:169 | the provider first renders in Chinese |
| Language.LanguageStore.Restore | frontend/components/providers/language-provider.tsx:171-176 | a non-empty stored language is adopted as it is; otherwise the language stays |
| Language.LanguageStore.SetLanguage | frontend/components/providers/language-provider.tsx:178-181 | the state and the stored value take the chosen language together |
| Language.ChoiceSurvivesReload | frontend/components/providers/language-provider.tsx:169-181 | after choosing a language, a reload restores that language |
| Language.UnsupportedStoredLanguageBreaksLookup | frontend/components/providers/language-provider.tsx:171-185 | a stored value outside the two languages, other than a name every object inherits, is adopted and every lookup then throws |
| Theme.ResolveTheme | frontend/components/providers/theme-provider.tsx:33-38 | `system` resolves to dark exactly when the system prefers dark; any other theme resolves to itself, so a valid theme is light or dark |
| Theme.RootClasses | frontend/components/providers/theme-provider.tsx:43-44 | the root holds the resolved class, neither of light and dark besides it, and every unrelated class it had |
| Theme.RootClassesIdempotent | frontend/components/providers/theme-provider.tsx:43-44 | setting the root class twice for the same theme is setting it once |
| Theme.ThemeStore.constructor | frontend/components/providers/theme-provider.tsx:18-19 | the provider first renders `system`, shown as light, with no listener |
| Theme.ThemeStore.Restore | frontend/components/providers/theme-provider.tsx:21-28 | a non-empty stored theme is adopted unchecked; without one `system` is stored |
| Theme.ThemeStore.SetTheme | frontend/components/providers/theme-provider.tsx:18-64 | the exposed setter changes the theme and nothing else |
| Theme.ThemeStore.ApplyTheme | frontend/components/providers/theme-provider.tsx:30-62 | the theme is resolved; when `classList.add` accepts it, it is set on the root, any theme but `system` is stored, and the listener runs exactly while the theme is `system`; when it does not (empty, or with whitespace) the effect throws after removing light and dark, storing nothing and registering no listener; a valid theme never throws and leaves exactly one of light and dark |
| Theme.ResolvedThemesAreTokens | frontend/components/providers/theme-provider.tsx:33-44 | each of the three themes resolves to a token `classList.add` accepts |
| Theme.SpacedThemeRefused | frontend/components/providers/theme-provider.tsx:44 | a stored theme such as "dark mode" holds whitespace, so adding it as a class throws |
| Theme.ThemeStore.PreferenceChanged | frontend/components/providers/theme-provider.tsx:51-60 | a change of system preference re-resolves only while listening |
| Theme.UnknownStoredThemeLeavesNoScheme | frontend/components/providers/theme-provider.tsx:21-44 | a stored value outside the three themes resolves to itself and leaves the root without light or dark |
| Terms.ReplacePrefix | frontend/components/terms-of-service.tsx:108-122 | on a line starting with the marker, replacing its first occurrence drops exactly that prefix |
| Terms.ClassifyLine | frontend/components/terms-of-service.tsx:104-133 | "# " gives a heading, "## " a subheading, "- " a list item, each without its marker; a blank line a break; anything else a paragraph of the line |
| Terms.RenderTerms | frontend/components/terms-of-service.tsx:104 | one block per line of the text, each the line's classification |
| Terms.OneBlockPerLine | frontend/components/terms-of-service.tsx:104 | there is one block more than there are line breaks |
| Terms.HeadingText | frontend/components/terms-of-service.tsx:105-124 | a heading or list line keeps the rest of the line after its marker |
| Terms.SubheadingText | frontend/components/terms-of-service.tsx:105-118 | a line beginning "## " is a subheading, not a heading |
| Uuid.ParseUuidText | backend/app/auth.py:53 | the subject written into a token, `str(user.id)`, parses back as the same identifier (also backend/app/main.py:148) |
| Uuid.UuidTextInjective | backend/app/auth.py:53 | distinct identifiers have distinct texts |
| Uuid.ParseUuid | backend/app/auth.py:52-55 | `UUID(sub)` succeeds only when 32 characters remain after dropping `urn:`, `uuid:`, surrounding braces and dashes |
| Markdown.Distinct | frontend/components/markdown.tsx:20-27 | `Array.from(new Set(xs))` holds the same items as the list, each once |
| Markdown.DistinctOfDistinct | frontend/components/markdown.tsx:20-27 | a list without repeats is its own de-duplicated list |
| Markdown.SchemaTagsAdded | frontend/components/markdown.tsx:18-27 | the allowed tags are the defaults plus figure, figcaption and iframe, each listed once |
| Markdown.SchemaProtocolsFixed | frontend/components/markdown.tsx:61-65 | `href` allows http, https, mailto and tel, `src` only http and https; every other protocol list is the default one |
| Markdown.LinkAttributes | frontend/components/markdown.tsx:30 | links may carry the default attributes plus className, target and rel, and nothing else |
| Markdown.ImageAttributes | frontend/components/markdown.tsx:31-43 | images may carry the default attributes plus class, sizes, alignment, captions and loading hints, and nothing else |
| Markdown.OtherAttributes | frontend/components/markdown.tsx:28-56 | frames get their fixed list, and tags the renderer does not name keep the default lists |
| Markdown.Clamp | frontend/components/markdown.tsx:77 | a percentage is clamped into [0, 100] and a value already there is kept |
| Markdown.NumberToCss | frontend/components/markdown.tsx:83-86 | a plain number in (0, 1] is a fraction, in (1, 100] a percentage, above 100 pixels, and nothing when not positive |
| Markdown.ParseWidthToCss | frontend/components/markdown.tsx:68-87 | no width, a blank text or a non-finite number gives nothing; a `%` text is clamped; anything else is read as a plain number |
| Markdown.WidthRange | frontend/components/markdown.tsx:68-87 | a produced width is a percentage in [0, 100] or a pixel length above 100 |
| Markdown.CaptionText | frontend/components/markdown.tsx:104-111 | the caption is the first string among `caption`, `data-caption` and `title` |
| Markdown.RenderImage | frontend/components/markdown.tsx:100-181 | a figure is drawn exactly for a non-empty caption; left/right float with side margins, center and the figure's width-without-align case centre, a floated figure without width is capped at `min(50%, 22rem)`; numeric width and height attributes pass through as given, non-finite ones included |
| Markdown.ImageStyle | frontend/components/markdown.tsx:113-129 | the plain image is at most full width with automatic height and carries the parsed width; left and right float it with that side's margins, center makes it a centred block, anything else a block |
| Markdown.FigureStyles | frontend/components/markdown.tsx:144-165 | the figure is a table with the parsed width; left and right float it, capped at `min(50%, 22rem)` without a width; it is centred exactly for center, or for a width without an alignment; the image inside is a full-width block when a width is given |
| Markdown.EmptyCaptionShadowsTitle | frontend/components/markdown.tsx:104-113 | an empty `caption` still hides the title, so no figure is drawn |
| Markdown.RenderLink | frontend/components/markdown.tsx:182-193 | a link opens in a new tab with `noreferrer noopener` exactly when `href` starts with http:// or https://, unless the author's own attributes override them |
| Markdown.ExternalIgnoresCase | frontend/components/markdown.tsx:183 | the scheme test ignores letter case |
| Markdown.RenderIframe | frontend/components/markdown.tsx:194-198 | a frame is classed `md-iframe` inside an `md-embed` wrapper |
| Models.UserRole.Value | backend/app/models.py:26-30 | every role's value is one of the four role strings |
| Models.ParseRole | backend/app/models.py:26-30 | a role is read exactly from one of the four strings, and reads back as that string |
| Models.RoleValuesRoundTrip | backend/app/models.py:26-30 | the four roles have four distinct values: each value reads back as its role |
| Models.NewUser | backend/app/models.py:48-65 | a user given only its required columns gets role USER, locale zh-CN, theme system, an unverified email, an active account and both timestamps now |
| Models.EmptyConsistent | backend/app/models.py:33-153 | an empty database satisfies every constraint |
| Models.AddUserOk | backend/app/models.py:35-47 | a user with a new id, username and email whose columns fit keeps the users table within its constraints |
| Models.NoSuperAdmins | backend/app/models.py:48-52 | the number of super admins is zero exactly when no user holds the super-admin role |
| Models.SuperAdminCountUpdate | backend/app/models.py:48-52 | replacing one user row changes the number of super admins by exactly what the old row and the new row contribute |
| Models.UsersOk | backend/app/models.py:33-69 | user rows fit their columns and have unique ids, usernames and addresses |
| Models.CodesOk | backend/app/models.py:71-82 | code rows fit their columns and have unique ids |
| Models.PostsOk | backend/app/models.py:84-108 | posts have bounded titles and image URLs, unique ids and an existing author |
| Models.CommentsOk | backend/app/models.py:110-133 | comments have unique ids and refer to an existing author and post |
| Models.SectionsOk | backend/app/models.py:135-153 | sections have non-blank, unique slugs of at most 64 characters, titles of at most 128, unique ids and an existing editor if any |
| Models.Consistent | backend/app/models.py:33-153 | the database accepts a commit exactly when every table's constraints hold |
| Store.Database.constructor | backend/app/models.py:33-153 | a new database is empty and satisfies every constraint |
| Store.Database.NextCodeId | backend/app/models.py:74 | a verification-code number is drawn from its sequence and never handed out twice |
| Store.Database.NextSectionId | backend/app/models.py:142 | an About-section number is drawn from its sequence and never handed out twice |
| Store.Database.Commit | backend/app/models.py:33-153 | a commit stores the prepared tables exactly when they satisfy every constraint, and otherwise changes nothing |
| PostComposer.SubmitGuard | frontend/components/create-post-dialog.tsx:40-51 | a submission passes exactly for a signed-in non-visitor with a non-blank title and content; guests are told to sign in first, then blank fields are refused |
| PostComposer.Composer.constructor | frontend/components/create-post-dialog.tsx:32-38 | the dialog starts with empty fields, no picture, nothing in progress and the URL box hidden |
| PostComposer.Composer.Edit | frontend/components/create-post-dialog.tsx:32-38 | typing changes only the title, the content and the URL box text |
| PostComposer.Composer.HandleSubmit | frontend/components/create-post-dialog.tsx:42-79 | a guarded submission sends nothing and changes nothing; otherwise the trimmed fields and the picture are sent, success clears the form, closes the dialog and hands on the server's post, failure keeps the form and shows the message or the fallback |
| PostComposer.Composer.Publish | frontend/components/create-post-dialog.tsx:53-78 | whatever the outcome, submitting is over afterwards; success clears every field and failure keeps them |
| PostComposer.Composer.HandleImageUrlSelect | frontend/components/create-post-dialog.tsx:81-87 | a guest is alerted and nothing changes; otherwise the URL box is toggled |
| PostComposer.Composer.HandleImageUrlSave | frontend/components/create-post-dialog.tsx:89-97 | a blank URL is refused with no change; otherwise the trimmed URL becomes the picture and the box is cleared and closed |
| PostComposer.Composer.HandleFileChange | frontend/components/create-post-dialog.tsx:107-133 | no file does nothing; a guest is alerted and the input cleared; otherwise the upload is sent, success sets the picture to the returned URL, and the input is cleared and uploading ends either way |
| PostComposer.Composer.HandleRemoveImage | frontend/components/create-post-dialog.tsx:135-137 | the picture is removed and nothing else changes |
| PostComposer.UploadContentType | frontend/components/create-post-dialog.tsx:119-125 | the multipart upload goes out labelled `application/json` (also frontend/lib/api.ts:12-14) |
| PostsFeed.DedupePosts | frontend/app/posts/page.tsx:31-40 | the loop with its `seen` set computes the one-item-at-a-time de-duplication |
| PostsFeed.DedupeIds | frontend/app/posts/page.tsx:34-37 | de-duplication keeps exactly the set of ids of the input |
| PostsFeed.DedupeUnique | frontend/app/posts/page.tsx:31-40 | no two kept posts share an id |
| PostsFeed.DedupeKeepsFirst | frontend/app/posts/page.tsx:34-37 | de-duplication keeps exactly the first occurrence of each id, in input order |
| PostsFeed.DedupeOfUnique | frontend/app/posts/page.tsx:31-40 | a list whose ids are already unique is left as it is |
| PostsFeed.DedupeKeepsHead | frontend/app/posts/page.tsx:34-37 | the first post always survives, at the front |
| PostsFeed.Feed.constructor | frontend/app/posts/page.tsx:19-30 | the page mounts on page 1 with no posts, more to load, nothing selected and a comment window of 5 |
| PostsFeed.Feed.BeginLoadPosts | frontend/app/posts/page.tsx:52-57 | nothing happens while loading or after the last page; otherwise loading starts, the error clears and the current page of 20 is requested |
| PostsFeed.Feed.CompleteLoadPosts | frontend/app/posts/page.tsx:56-65 | a page appends its posts de-duplicated, takes `has_more` and advances the page by exactly one; a failure records the message and changes nothing else; loading ends either way |
| PostsFeed.Feed.HandlePostCreated | frontend/app/posts/page.tsx:42-50 | the new post goes first in the de-duplicated feed and becomes the selected post with no comments |
| PostsFeed.Feed.HandleSelectPost | frontend/app/posts/page.tsx:86-99 | the post is selected with an empty form and a window of 5; its comments and their first 5 are shown, or none with an alert on failure |
| PostsFeed.Feed.HandleCloseComments | frontend/app/posts/page.tsx:101-106 | nothing is selected, no comments are shown and the form is empty |
| PostsFeed.Feed.LoadMoreComments | frontend/app/posts/page.tsx:108-112 | the window grows by 5 and shows the first `min(count + 5, total)` comments |
| PostsFeed.Feed.SetCommentText | frontend/app/posts/page.tsx:26 | typing changes only the comment text |
| PostsFeed.Feed.HandleSubmitComment | frontend/app/posts/page.tsx:114-133 | a blank comment or no selected post does nothing; no user or token alerts and sends nothing; otherwise the trimmed text is posted, success clears the form and shows the refetched comments within the window, failure alerts and changes nothing |
| PostsFeed.LoadKeepsPosts | frontend/app/posts/page.tsx:58 | loading a page never loses a shown post, and every post of the page ends up shown |
| PostsFeed.DedupePrefix | frontend/app/posts/page.tsx:58 | de-duplicating an extension of a duplicate-free feed keeps that feed as the prefix |
| PostsFeed.CreatedPostFirst | frontend/app/posts/page.tsx:44 | a created post shows first; in a duplicate-free feed that lacked it, it is simply prepended |
| ProfilePage.FilterByAuthor | frontend/app/profile/page.tsx:36 | the kept posts are exactly those of the author, and a page of only theirs is kept whole |
| ProfilePage.FilterByAuthorAppend | frontend/app/profile/page.tsx:36 | the filter keeps input order: filtering a concatenation filters each part |
| ProfilePage.ShouldRedirect | frontend/app/profile/page.tsx:19-23 | the page sends the visitor to the login page once the session has loaded without a user |
| ProfilePage.RoleName | frontend/app/profile/page.tsx:62-70 | the four roles get their labels and anything else "未知" |
| ProfilePage.Page.constructor | frontend/app/profile/page.tsx:16-17 | the page mounts with no posts and nothing loading |
| ProfilePage.Page.UserChanged | frontend/app/profile/page.tsx:25-51 | the previous run is cancelled; without a user the list is emptied and nothing is fetched; with one a new run starts loading and requests page 1 of size 100 |
| ProfilePage.Page.Complete | frontend/app/profile/page.tsx:33-46 | a cancelled run changes nothing; the live run shows the user's own posts of the page, or none on failure, and stops loading |
| ProfilePage.Page.Unmount | frontend/app/profile/page.tsx:49-51 | leaving the page cancels the live run and changes nothing shown |
| ProfilePage.StaleCompletionIgnored | frontend/app/profile/page.tsx:30-51 | a run replaced by a user change never overwrites the newer run's state |
| Integration.ProfileRequestRejected | frontend/app/profile/page.tsx:34 | the profile page's request, page size 100, always fails the listing's bound of 20 (also backend/main.py:206) |
| Integration.Delivered | frontend/lib/api.ts:31-36 | the frontend receives an error exactly when the backend refused, and otherwise a page of as many posts |
| Integration.ProfileShowsNoPosts | frontend/app/profile/page.tsx:25-46 | a signed-in user's profile page always ends up showing no posts and not loading, whatever is stored (also backend/main.py:203-223) |
| RegisterForm.CodeHint | frontend/app/register/page.tsx:53-57 | the hint shows the returned test code exactly when the response carries a non-empty one; otherwise it says the code was mailed |
| RegisterForm.CountdownValue | frontend/app/register/page.tsx:44-52 | after `n` firings the countdown is `max(start - n, 0)`: it drops one per second and never goes below zero |
| RegisterForm.SendCodeDisabledForAMinute | frontend/app/register/page.tsx:43-52 | after a successful request the send button stays disabled for exactly 60 firings |
| RegisterForm.LocaleFor | frontend/app/register/page.tsx:87 | the locale is zh-CN exactly for Chinese and en-US otherwise |
| RegisterForm.LoginIdentifier | frontend/app/register/page.tsx:91 | the sign-in uses the username when one was typed, else the email |
| RegisterForm.SubmitGuard | frontend/app/register/page.tsx:66-74 | a submission passes exactly when the passwords match and the terms are ticked; a mismatch is reported before the terms |
| RegisterForm.Form.constructor | frontend/app/register/page.tsx:24-33 | the form starts empty, with no countdown, no timer, no hint and no error |
| RegisterForm.Form.Edit | frontend/app/register/page.tsx:24-31 | typing changes only the fields typed into |
| RegisterForm.Form.HandleSendCode | frontend/app/register/page.tsx:35-61 | without an email nothing happens; success starts a 60-second countdown on a new interval and sets the hint; failure sets the error only |
| RegisterForm.Form.IntervalFires | frontend/app/register/page.tsx:44-52 | a firing ticks the countdown down, and at one or below sets zero and clears its interval |
| RegisterForm.Form.Register | frontend/app/register/page.tsx:76-97 | registration failure sets the error and leaves the session alone; success signs in with the chosen identifier and goes home unless the sign-in fails; loading ends either way |
| RegisterForm.Form.HandleSubmit | frontend/app/register/page.tsx:63-98 | a guarded submission alerts and changes nothing; otherwise the body carries the fields, the locale of the language and the theme, and the outcome is as `Register` states: a failed registration or sign-in sets the error and leaves the session, a sign-in navigates with the session's token and user set from the profile outcome, and the form fields, countdown, timers and hint stay |
| Reveal.RevealText | frontend/components/reveal-text.tsx:10-30 | one piece per code point in order; exactly the newlines become breaks; every other piece shows its character, a space as U+00A0, with delay `base + index * stagger`; the label is the text |
| Reveal.DefaultDelays | frontend/components/reveal-text.tsx:10-22 | with the defaults a glyph at index i starts at `120 + 90 * i`, 90 ms after its predecessor |
| Reveal.GlyphsKeepText | frontend/components/reveal-text.tsx:17 | every character other than a newline or a space is shown unchanged |
| Session.SessionStore.constructor | frontend/components/providers/auth-provider.tsx:23-25 | the provider first renders signed out and loading, and keeps a user only with its persisted token |
| Session.SessionStore.FetchProfile | frontend/components/providers/auth-provider.tsx:27-46 | a falsy token clears the user without a request; a fetched profile becomes the user; a failure clears the user, the token and the stored key together |
| Session.SessionStore.Init | frontend/components/providers/auth-provider.tsx:48-56 | a stored token is adopted and its profile fetched before loading ends; without one loading ends at once and nothing else changes |
| Session.SessionStore.Login | frontend/components/providers/auth-provider.tsx:58-69 | a rejected login changes nothing and its error propagates; otherwise the token is stored and adopted before the profile is fetched with it |
| Session.SessionStore.Logout | frontend/components/providers/auth-provider.tsx:71-75 | the stored key, the token and the user all go; on a signed-out store nothing changes |
| Session.SessionStore.RefreshProfile | frontend/components/providers/auth-provider.tsx:77-79 | the profile is fetched again with the current token, with the same outcomes |
| Session.SessionStore.SetSession | frontend/components/providers/auth-provider.tsx:81-85 | storage, token and user take the given values together |
| Session.LogoutTwice | frontend/components/providers/auth-provider.tsx:71-75 | logging out twice leaves the same state as logging out once |
| Schemas.RegisteredUsernameFits | backend/app/schemas.py:44 | a username that passes validation (3 to 50 characters) always fits its 50-character column (also backend/app/models.py:45) |
| Schemas.RegisterRequestValid | backend/app/schemas.py:41-47 | a registration body is accepted when the code has exactly 6 characters, the username 3 to 50 and the password 8 to 128 |
| Schemas.CommentCreateValid | backend/app/schemas.py:79-80 | a comment body is accepted when its content has 1 to 2000 characters |
| Schemas.BearerToken | backend/app/schemas.py:12-14 | the token response carries the token with type "bearer" |
| AboutEditor.FindBySlug | frontend/app/about/page.tsx:40 | a section is found exactly when one carries the slug, and what is found is the first section carrying it |
| AboutEditor.FindFirst | frontend/app/about/page.tsx:40 | `find` returns the first match: the first section is found by its own slug |
| AboutEditor.ReplaceById | frontend/app/about/page.tsx:140 | the list keeps its length; each section with the saved id becomes the saved section, every other one stays |
| AboutEditor.RemoveSlug | frontend/app/about/page.tsx:201 | the remaining sections are old ones and none carries the deleted slug |
| AboutEditor.RemoveSlugKeepsOthers | frontend/app/about/page.tsx:201 | deletion removes every section with the slug, keeps every other one, and leaves a list without that slug untouched |
| AboutEditor.Editor.constructor | frontend/app/about/page.tsx:17-25 | the page starts loading, with no sections, no error, nothing selected and no draft |
| AboutEditor.Editor.ActiveSection | frontend/app/about/page.tsx:37-44 | no active section without sections; otherwise the one named by a non-empty `activeSlug` if loaded, else the first |
| AboutEditor.Editor.HasUnsavedChanges | frontend/app/about/page.tsx:147-150 | dirty exactly when a slug is being edited and the draft title or body differs from the original |
| AboutEditor.Editor.ResetEditingState | frontend/app/about/page.tsx:29-35 | editing ends with an empty draft and original, nothing dirty, and the rest of the page unchanged |
| AboutEditor.Editor.FetchSections | frontend/app/about/page.tsx:46-57 | loading ends; success stores the sections and clears the error, failure keeps them and shows the message or the fallback |
| AboutEditor.Editor.SyncActiveSlug | frontend/app/about/page.tsx:87-94 | with sections loaded, a selected slug that names a section is kept and any other is replaced by the first section's; the active section does not change |
| AboutEditor.Editor.SwitchTo | frontend/app/about/page.tsx:71-118 | confirmation is asked exactly when a dirty draft of another slug would be left; declined, nothing changes; otherwise the slug becomes active, the draft discarded if it was asked |
| AboutEditor.Editor.HandleSelectSection | frontend/app/about/page.tsx:110-119 | choosing a section asks exactly when a dirty draft of another slug is open; a declined confirmation keeps everything; otherwise the section is selected, a confirmed discard resets every editing field, no question leaves them as they were, and the sections, loading flag and error stay |
| AboutEditor.Editor.ApplyHash | frontend/app/about/page.tsx:64-82 | a hash, with its `#` stripped, that is empty or names no loaded section changes nothing; one naming a section selects it as a click would: the same question, the same reset or kept editing fields, and the sections, loading flag and error unchanged |
| AboutEditor.Editor.OpenEditor | frontend/app/about/page.tsx:121-127 | the draft and the original both become the section's title and body, so nothing is dirty |
| AboutEditor.Editor.EditDraft | frontend/app/about/page.tsx:22-23 | typing changes only the draft, which is dirty exactly when it differs from the original while editing |
| AboutEditor.Editor.HandleSave | frontend/app/about/page.tsx:129-145 | nothing is sent without an edited slug and a token; the saved section replaces the one with its id and editing ends; a failure alerts and changes nothing |
| AboutEditor.Editor.CancelEditing | frontend/app/about/page.tsx:157-163 | a dirty draft asks first and survives a refusal; otherwise editing is reset |
| AboutEditor.Editor.HandleCreateSection | frontend/app/about/page.tsx:165-188 | needs a token and, over a dirty draft, a confirmation; sends the language's default title and body; the created section joins the list sorted by id and is shown and opened with draft and original equal; a failure alerts, leaving the sections and selection, with the editing fields reset when a dirty draft was confirmed away and untouched otherwise |
| AboutEditor.Editor.HandleDeleteSection | frontend/app/about/page.tsx:190-205 | needs a token and always asks; only a confirmed, successful delete removes the slug's sections, resetting the editor if that slug was being edited and leaving every editing field otherwise; a failure alerts and changes nothing |
| AboutEditor.CreatedSectionsSorted | frontend/app/about/page.tsx:182 | after a create the list is sorted by id and is the old list plus the created section; appending a largest id to a sorted list keeps the order |
| AboutEditor.SaveReplacesOnlyThatId | frontend/app/about/page.tsx:140 | a save replaces the sections with the saved id and only them; without such a section the list is unchanged |
| Handlers.Authenticate | backend/app/auth.py:18-76 | no bearer token is 401 "Not authenticated" before anything is decoded; otherwise the role gate's answer, and a user who passes is an active stored user whose role is allowed or super admin |
| Handlers.VisitorRefused | backend/app/auth.py:65-76 | a visitor who authenticates is still refused with 403 by the member gate and by the admin gate (also backend/main.py:229, backend/main.py:304) |
| Handlers.NormalizeEmail | backend/main.py:117-143 | a normalised address is the stripped address with each ASCII capital lower-cased, so it is lower case and as long as the stripped address |
| Handlers.GenerateCode | backend/main.py:82-84 | the code has six characters, each the decimal digit drawn at that position (also backend/app/main.py:64-66) |
| Handlers.IssuedCode | backend/main.py:117-124 | the new code row carries the normalised address and the drawn code, is unused, and expires 15 minutes after its creation (also backend/app/models.py:78-80) |
| Handlers.CodeReply | backend/main.py:132-138 | a failed mail is 500 only in production; otherwise the message is returned, with the code exactly when not in production |
| Handlers.AddCodeConsistent | backend/main.py:125-126 | a code row with a new number keeps the tables consistent exactly when its address and code fit their columns (also backend/app/models.py:74-76) |
| Handlers.RequestEmailCode | backend/main.py:115-138 | a code number is always used up; a fitting address commits the row and then mails the code, answering as `CodeReply`; an address too long for its column is a server error, nothing is stored and nothing is sent (also backend/app/main.py:69-92) |
| Handlers.NewestCode | backend/main.py:145-155 | the chosen code matches the address, the code, is unused and unexpired, and no matching code is newer; none is chosen exactly when none matches |
| Handlers.RegisterCheck | backend/main.py:143-165 | an invalid body is 422; otherwise a missing code is 400 "Invalid or expired code", then a taken address, then a taken username; success names a matching code (also backend/app/schemas.py:41-45) |
| Handlers.OrDefault | backend/main.py:172-173 | a missing or empty choice falls back to the default, any other is kept |
| Handlers.RegisteredUser | backend/main.py:167-175 | the new user has the chosen username, the normalised address, the hashed password, role user, a verified address, is active, and has the chosen or default locale and theme (also backend/app/models.py:57-65) |
| Handlers.RegisteredConsistent | backend/main.py:176-178 | adding the user and spending the code keeps the tables consistent exactly when the user's columns fit and the identifier is new (also backend/app/models.py:35-46) |
| Handlers.SpendCodeOk | backend/main.py:177 | marking a code used keeps the code table consistent |
| Handlers.AddUserKeepsReferences | backend/app/models.py:93-148 | adding a user keeps every reference of posts, comments and sections to users valid |
| Handlers.RegisterUser | backend/main.py:141-180 | a failed check answers its error and changes nothing; otherwise the user is added and the code spent in one commit, or, if the database refuses the commit, a server error with nothing changed (also backend/app/main.py:95-134) |
| Handlers.RegisterOnce | backend/main.py:159-161 | once an address has registered, every later registration with it fails |
| Handlers.SpentCodeRefused | backend/main.py:150-177 | a code spent by a registration matches no later request |
| Handlers.ExpiredCodeRefused | backend/main.py:151 | a code no longer matches once its expiry instant has come |
| Handlers.MatchingUsers | backend/main.py:186-188 | exactly the indices, in increasing order, of the users whose address equals the identifier ignoring case or whose username equals it |
| Handlers.NoMatch | backend/main.py:186-189 | an identifier nobody has matches no row |
| Handlers.OnlyMatch | backend/main.py:186-189 | a user who is the only match is the whole answer of the query |
| Handlers.Login | backend/main.py:183-195 | no match is 401; two or more matches are a server error; success means a single match with a verifying password who is active, and it returns a bearer token for that user's id and role (also backend/app/main.py:137-149) |
| Handlers.LoginChecksPasswordFirst | backend/main.py:190-194 | for a single match, a wrong password is 401 even for an inactive user; a right password is 403 for an inactive user and a token otherwise |
| Handlers.LoginByEmail | backend/main.py:185-195 | a user can sign in with their address in any letter case, and the token they get authenticates them (also backend/app/auth.py:38-62) |
| Handlers.LoginAmbiguous | backend/main.py:186-189 | two users identified by the same identifier, say one's address and the other's username, make the login a server error |
| Handlers.ByAuthor | backend/main.py:210-212 | without an author every post is kept; with one exactly the posts of that author remain |
| Handlers.Feed | backend/main.py:215 | the listed posts are a permutation of the filtered posts, newest first |
| Handlers.PageSlice | backend/main.py:215 | a page holds at most page_size posts, the consecutive run starting at (page-1)*page_size; it is empty exactly past the end and full when the run fits |
| Handlers.ListPosts | backend/main.py:203-223 | 422 unless page >= 1 and 1 <= page_size <= 20; otherwise a newest-first page of stored posts by the requested author, the total of matching posts, and has_more exactly when page*page_size < total |
| Handlers.SliceSorted | backend/main.py:215 | every page of a newest-first feed is newest first |
| Handlers.FeedMembers | backend/main.py:210-215 | every post on a page is stored, and by the requested author if one is given |
| Handlers.PostOnItsPage | backend/main.py:215 | post number k of the feed is item k mod page_size of page k div page_size + 1, so paging reaches every post |
| Handlers.PositionOnPage | backend/main.py:215 | a valid page holds item rem whenever the feed has a post rem places after the (page-1)*page_size posts of earlier pages, and that item is that post |
| Handlers.HasMoreIffNextPage | backend/main.py:216 | has_more holds exactly when the next page is not empty |
| Handlers.LegacyListPosts | backend/app/main.py:157-178 | the older listing has the same bounds, counts every post, and has_more exactly when page*page_size < total |
| Handlers.LegacyListPostsAgrees | backend/app/main.py:157-178 | the older listing answers exactly as the newer one does when no author is given (also backend/main.py:203-223) |
| Handlers.DataChunks | backend/main.py:91-94 | the reads that deliver data are all non-empty |
| Handlers.SaveUpload | backend/main.py:56-112 | the upload succeeds exactly when the file is at most 5 MiB, and then returns its size with everything written; otherwise 413 and the file is removed; no more than 5 MiB is ever written |
| Handlers.UploadSizeStep | backend/main.py:92-95 | a non-empty read adds its length to the size of the rest |
| Handlers.ImageExtension | backend/main.py:48-251 | an extension exists exactly for the six listed content types, and is the one listed |
| Handlers.UploadFilename | backend/main.py:255 | the stored name is 32 hexadecimal digits followed by the extension |
| Handlers.UploadImage | backend/main.py:244-259 | the member gate's error first; an unlisted type is 400 and nothing is stored; otherwise the file's URL, name and size when it is at most 5 MiB, else 413 and nothing kept |
| Handlers.AddCommentConsistent | backend/main.py:288-290 | a comment by a stored user on a stored post keeps the tables consistent exactly when its identifier is new (also backend/app/models.py:110-122) |
| Handlers.MemberIsUser | backend/app/auth.py:57-62 | an authenticated user is a row of the users table |
| Handlers.CreateComment | backend/main.py:278-292 | the member gate, then 422 for the body, then 404 for an unknown post; otherwise the comment is stored with the current user as author; nothing else changes (also backend/app/schemas.py:79-80, backend/app/main.py:215-229) |
| Handlers.FindRow | backend/main.py:307 | the index of a row satisfying the lookup, and none exactly when no row does; it serves the section lookup by slug and `db.get(User, user_id)` (also backend/main.py:327) |
| Handlers.EditedSection | backend/main.py:310-314 | a non-empty title replaces the old one, the body is always replaced, and the editor and time are recorded; id and slug stay |
| Handlers.EditSectionConsistent | backend/main.py:315 | an edit by a stored user keeps the tables consistent exactly when the title fits its column (also backend/app/models.py:135-151) |
| Handlers.UpdateAboutSection | backend/main.py:300-317 | the admin gate, then 404 for an unknown slug; otherwise the edit is stored, and a title too long for its column is a server error with nothing changed (also backend/app/main.py:237-254) |
| Handlers.WithRole | backend/main.py:332 | only the role changes, and the update time moves only when the role actually changes (also backend/app/models.py:60-65) |
| Handlers.RoleChangeConsistent | backend/main.py:332-333 | changing one user's role never breaks a constraint |
| Handlers.UpdateUserRole | backend/main.py:320-335 | the super-admin gate, then 404 for an unknown user, then 400 for demoting a super admin; otherwise the new role is stored and nothing else changes (also backend/app/main.py:257-272) |
| Handlers.RoleChangeKeepsSuperAdmins | backend/main.py:330-332 | an allowed role change never lowers the number of super admins, and promoting someone raises it by one |
| Initialization.ConfiguredSuperAdmin | backend/app/initialization.py:34-44 | the seeded account has the configured name, address and hashed password, role super admin, the default locale and theme, a verified address, and is active |
| Initialization.EnsureSuperAdmin | backend/app/initialization.py:26-45 | as written: start-up fails exactly when two or more super admins exist; with one nothing changes; with none the configured account is added |
| Initialization.EnsureSuperAdminFixed | backend/app/initialization.py:26-45 | as intended: the configured account is added exactly when no super admin exists, so afterwards there is at least one |
| Initialization.EnsureSuperAdminFixedAgrees | backend/app/initialization.py:27-32 | wherever the written check does not fail, the intended one gives the same users |
| Initialization.EnsureSuperAdminIdempotent | backend/app/initialization.py:31-32 | seeding the super admin a second time changes nothing |
| Initialization.DefaultTitle | backend/app/initialization.py:55-62 | the three known slugs get their fixed titles; any other gets its title-cased slug with underscores as spaces |
| Initialization.DerivedTitleShape | backend/app/initialization.py:62 | a derived title is as long as its slug, with spaces exactly where the slug has underscores or spaces |
| Initialization.SlugSet | backend/app/initialization.py:49-51 | exactly the slugs of the stored sections |
| Initialization.MissingMembers | backend/app/initialization.py:52-54 | a default is among the ones added exactly when its slug is not stored already |
| Initialization.SectionRowsAt | backend/app/initialization.py:60-66 | row k is the section of the k-th missing default, numbered on from the first free number, with its slug, default title and body, and no editor |
| Initialization.AddDefaultSections | backend/app/initialization.py:52-66 | the loop prepares exactly the rows for the missing defaults and draws one section number for each, committing nothing yet |
| Initialization.Seeded | backend/app/initialization.py:21-23 | the seeded tables are the intended super-admin step over the users and the missing sections appended; no other table changes |
| Initialization.SeededNumbered | backend/app/initialization.py:60-66 | the new section numbers are above every stored one (also backend/app/models.py:142) |
| Initialization.RunInitialization | backend/app/initialization.py:14-23 | with the intended super-admin check, the account and the missing sections are committed together exactly when the seeded tables satisfy every constraint; a rejected commit changes no table; an account the users table refuses fails at the flush before the section query and draws no section number, otherwise one number is drawn per missing section |
| Initialization.SeededNeedsFlush | backend/app/initialization.py:48-51 | the seeded tables can be consistent only if the tables with just the super-admin step flushed already are, so failing at that flush loses no accepted run |
| Initialization.SeededHasDefaults | backend/app/initialization.py:52-66 | after seeding every default slug is stored |
| Initialization.NothingMissing | backend/app/initialization.py:53-54 | with every default slug stored nothing is added |
| Initialization.SecondRunAddsNothing | backend/app/initialization.py:14-66 | a second start-up, over what the first committed, adds no user and no section |
| Initialization.AllMissing | backend/app/initialization.py:52-54 | on an empty table every default is missing |
| Initialization.DefaultRowsOk | backend/app/config.py:65-71 | the three default sections satisfy every section constraint: distinct numbers and slugs, non-blank slugs, fitting titles (also backend/app/initialization.py:55-66, backend/app/models.py:135-151) |
| Initialization.SeededEmpty | backend/app/initialization.py:14-66 | a first start-up on an empty database prepares the configured account and the three default sections numbered from 1 |
| Initialization.FreshInstallSucceeds | backend/app/initialization.py:14-66 | on an empty database the first start-up commits, provided the configured account fits its columns (also backend/app/models.py:35-46) |
| Integration.AsFrontendUser | backend/app/schemas.py:23-35 | the user record the frontend receives carries the stored role's value, name, address and flags |
| Integration.GuestIffRefused | frontend/components/create-post-dialog.tsx:40 | the composer treats a signed-in user as a guest exactly when the backend's member gate would refuse them (also backend/app/auth.py:65-76, backend/main.py:229) |
| Integration.EveryRoleNamed | frontend/app/profile/page.tsx:62-70 | the profile page has a name for every role the backend stores, so "unknown" never shows for a real account (also backend/app/models.py:26-30) |
| Integration.PromotionBreaksStartup | backend/main.py:330-332 | with one super admin, the role route allows promoting another user to super admin, and the start-up check as written then fails (also backend/app/initialization.py:27-32) |
| Integration.PromotionKeepsStartup | backend/main.py:330-332 | with the intended check, no role change the route allows can stop a later start-up or make it add an account (also backend/app/initialization.py:26-45) |

## Left out

- Routes outside the modelled core: `create_post`, `get_post`, `get_comments`, `get_about_sections`, `/auth/me` and `/health` are plain reads or inserts with no rule of their own. Their gates are the ones `Handlers.Authenticate` models.
- Request validation that is FastAPI's and Pydantic's own: `EmailStr` address syntax, and the 422 for a path parameter that is not a UUID. Bodies are modelled after parsing, and only their length bounds are checked.
- Handlers.RequestEmailCode: its path for an address too long for the 255-character column cannot be reached in the source, because `EmailStr` refuses addresses over 254 characters with a 422 first; the model, which does not check address syntax, keeps that path as a server error.
- The `detail` of a validation failure: FastAPI answers 422 with a list of error objects, one per failed field; the model keeps the status and puts a fixed text in place of that list.
- Initialization.RunInitialization: the whole start-up run is composed with the intended super-admin step only; the as-written step, which fails the start-up when two or more super admins exist, is modelled as a step (`Initialization.EnsureSuperAdmin`, `Integration.PromotionBreaksStartup`) and not as a full run.
- Email.AddressText: a `from_email` that is not a string becomes the empty address, where the f-string building the `From` header would write `str(value)` (`123`, `None`, `True`); Python's number and literal formatting is not modelled.
- ProfilePage.RoleName: a role that names a property every object inherits (`constructor`, `toString`, ...) is looked up through the prototype chain, so `roleMap[role] || "未知"` gives an inherited function rather than "未知"; the model gives "未知" for every role outside the four.
- Language.Translate: a stored language that names a property every object inherits (`constructor`, `__proto__`, `toString`, ...) is looked up through the prototype chain, so `t` returns the key or an inherited value (`"Object"` for `t("name")` under `constructor`) instead of throwing; the model treats it as a missing table and returns none.
- The 500 that `_save_upload` raises on an unexpected I/O failure: file writes are not modelled. Chunks are a sequence of lengths, and the stored file is a flag.
- The order of rows that tie on `created_at` in the listing. PostgreSQL leaves it unspecified, so the model fixes one stable order.
- Time zones and sub-second precision: instants are integer seconds, and backend/app/timezone.py is not part of this model.
- bcrypt, the `jose` JWT signer and verifier, SMTP, `uuid4`, `secrets`, `fetch`, `JSON.parse` and `Number(...)` are parameters. Their own behaviour is not modelled.
- Loading `.env`, the `lru_cache` on the settings, and creating the tables: the environment is a map given to the configuration functions, and backend/app/database.py is not part of this model.
- The contents of the translation tables: they are presentation text, and the table is a parameter of the lookup.
- React scheduling: effects run as separate steps. The lag of `editingRef` behind the state, the two-way sync of the URL hash through `window.history`, and the DOM are not modelled.
- The internals of react-markdown and rehype-sanitize: only the schema data and the component rules are modelled.
- Letter case beyond ASCII: lower-casing and title-casing are modelled for ASCII letters only.
- Text.PyParseInt: Python's `int()` also accepts decimal digits outside ASCII (`int("８０")` is 80); the model accepts ASCII digits only, so `Config.IntEnv` and `Email.PyInt` treat such a value as not a number.
- The `theme ?? "system"` fallback in the registration body (frontend/app/register/page.tsx:88): the theme provider's state starts as `"system"` and is always a string, so the fallback cannot be reached and the model sends the theme as it is.
- How widths are written as CSS text: `Markdown.ParseWidthToCss` returns a tagged percentage or pixel value rather than the formatted string.
- Presentation-only files: the layout, footer, mobile navigation, lightbox, route transition and home page. Also the login page (a terms guard before the session store's login), the simulated forgot-password page, and the type declarations in frontend/lib/types.ts, which appear here as datatypes. `formatDate` is left out too.
- Concurrency: interleaved requests and cancellation beyond the profile page's ticket are not modelled.

## Findings

| source | as written | input that shows it | evidently intended | confidence | as-written member | corrected member |
|---|---|---|---|---|---|---|
| backend/app/initialization.py:27-32, backend/main.py:330-332 | the start-up check reads the super admins with `scalar_one_or_none()`, which raises when there are two or more, while the role route lets a super admin promote anyone to super admin | one super admin promotes another user with `PATCH /admin/users/{id}/role` and role `super_admin`; at the next start-up the check finds two rows and start-up fails | an existence check: add the configured account only when no super admin exists, and accept any number of them | medium, not executed | Initialization.EnsureSuperAdmin, Integration.PromotionBreaksStartup | Initialization.EnsureSuperAdminFixed, Integration.PromotionKeepsStartup |
