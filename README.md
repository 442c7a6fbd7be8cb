# CodePill blog core, modelled in Dafny

This project models the logic of the CodePill blog front end in Dafny:

- **Post loader.** It derives a slug from a directory entry, builds the file path, merges front-matter into a post record, loads every entry, sorts most recent first and filters featured posts.
- **Post renderers.** There are two: the themed one and the older one. Each has a markdown-node override for paragraphs that open with an image, and the themed one also overrides code blocks. The themed one picks its highlighter palette from the theme and builds the header image path.
- **Contact endpoint.** A validation guard picks between 422 and 200.
- **Contact form.** It has an email pattern, a send condition and the state changes of `sendMessage`.
- **Analytics helpers.** These cover country inference, device classification, the stored user id and the once-per-session send guard.
- **Theme toggle.** It covers the checkbox, the swap and its persisted value, and the theme load.

All I/O is modelled as inputs or fields:

- the directory listing;
- the parsed files;
- browser storage;
- whether a window exists;
- the navigator's language and user agent;
- the network reply and the random id part.

Files:

| file | models |
|---|---|
| `wrappers.dfy` | `Option` and `Result` |
| `strings.dfy` | The JavaScript string methods the site calls: `includes`, `replace` with a string pattern, `trim`, and `toLowerCase`/`toUpperCase`. `IndexOf` is a helper for `includes` and `replace`; the site does not call `indexOf` itself. The case mapping covers ASCII only. `split("-")[1]` is modelled in `analytics.dfy` as `SecondField`. |
| `posts_utils.dfy` | `lib/posts-utils.tsx` |
| `markdown.dfy` | The markdown node tree and the rendered output tree. |
| `post_content.dfy` | `components/posts/postContent/postContent.tsx` |
| `legacy_post_content.dfy` | `components/layout/posts/postContent/postContent.tsx` |
| `contact_api.dfy` | `pages/api/contact.ts` |
| `contact_form.dfy` | `components/contact/contactForm.tsx` |
| `analytics.dfy` | `lib/analytics.ts` |
| `main_navigation.dfy` | `components/layout/navigation/main-navigation.tsx` |

Where the model follows the code rather than the documented design:

- **Image detection.** A paragraph is rewritten when its *first* child is an image, not only when the image is its sole child. The children after the image are dropped.
- **Slug derivation.** It removes the *first* `.md` anywhere in the name, not a trailing extension. So `a.mdx.md` has the slug `ax.md`.
- **Name check.** The endpoint's name check `name.trim === ""` is never true, so a name made only of spaces is accepted (see Findings).
- **Failed sends.** The contact form drops them silently: there is no error message and no reset.
- **Featured posts.** A post is featured when its `isFeatured` value is truthy, not only when it is `true`. So `isFeatured: "yes"` is featured and a missing flag is not.
- **Malformed paragraphs.** The design says malformed markup should fall back to the default paragraph rendering rather than throw. Both renderers read `node.children[0].tagName`, which throws on a paragraph with no children: the themed one at components/posts/postContent/postContent.tsx:29 and the older one at components/layout/posts/postContent/postContent.tsx:21. The model follows the code. `PostContent.Render` and `LegacyPostContent.Render` both give `None` for such a paragraph. The `None` fails `PostContent.RenderAll`/`PostContent.RenderPost` and `LegacyPostContent.RenderAll` too, so the whole article fails to render.

Where the model departs from the code:

- **Front-matter dates.** The code loads a post whatever its date is, as long as it is not missing, `null` or `undefined`. It then compares `new Date(...)` values. The model takes dates as integer timestamps. A post whose date is a string, a boolean or a number is refused with `UnparsedDate`, and that refusal fails the whole listing. `UnparsedDate` is the model's own error: it stands for the dates the model does not parse, and the code never raises it.

## Model

| member | source | states |
|---|---|---|
| PostsUtils.Slug | lib/posts-utils.tsx:12 | Without a `.md` the slug is the identifier; with one it is exactly three characters shorter. SlugRemovesFirstMd says which three. |
| PostsUtils.SlugRemovesFirstMd | lib/posts-utils.tsx:12 | An identifier without `.md` is its own slug. Otherwise the slug is the identifier with exactly the first `.md` occurrence cut out. |
| PostsUtils.SlugOfDoubleExtension | lib/posts-utils.tsx:12 | `a.md.md` has the slug `a.md`. |
| PostsUtils.SlugOfInnerExtension | lib/posts-utils.tsx:12 | `a.mdx.md` has the slug `ax.md`: an inner `.md` is removed before the suffix. |
| PostsUtils.SlugOfSuffixed | lib/posts-utils.tsx:12 | For a name with no `.md`, `name.md` has the slug `name`. |
| PostsUtils.PostPath | lib/posts-utils.tsx:13 | The path is as long as the root plus twice the slug plus five characters. |
| PostsUtils.PostPathShape | lib/posts-utils.tsx:13 | The path is `root/slug/slug.md`, with the slug appearing twice. |
| PostsUtils.PostPathInjective | lib/posts-utils.tsx:13 | Two slugs that give the same path are equal. |
| PostsUtils.Merge | lib/posts-utils.tsx:17-23 | The record's keys are the front-matter keys plus `slug`, `content`, `date` and `isFeatured`. `content`, `date` and `isFeatured` always come from the parsed file, and a missing flag becomes `undefined`. A front-matter `slug` replaces the derived one. Every other front-matter key is copied. |
| PostsUtils.LoadPost | lib/posts-utils.tsx:11-26 | Loading fails with `NotFound(path)` exactly when `<root>/<slug>/<slug>.md` is not among the files. |
| PostsUtils.LoadPostOutcome | lib/posts-utils.tsx:11-26 | A post loads iff its file exists and its front-matter date is a timestamp, and the result is then the merged record. A missing, null or undefined date fails with `MissingDate`, so there is no default. Any other date fails with `UnparsedDate`. |
| PostsUtils.LoadedRecordFields | lib/posts-utils.tsx:17-23 | A loaded record has these fields: `content` is the body; `date` is the front-matter date; `slug` is the front-matter slug if there is one, else the derived slug. `isFeatured` is truthy iff the front-matter flag is present and truthy. |
| PostsUtils.LoadAll | lib/posts-utils.tsx:29-31 | A loaded listing has exactly one record per directory entry. |
| PostsUtils.LoadAllSucceeds | lib/posts-utils.tsx:29-31 | The listing loads iff every entry loads. |
| PostsUtils.LoadAllRecords | lib/posts-utils.tsx:31 | A loaded listing holds, at each entry's position, that entry's record. |
| PostsUtils.LoadAllFirstFailure | lib/posts-utils.tsx:31 | A failing listing reports the error of the first entry that fails, and every entry before it loads. |
| PostsUtils.WithDate | lib/posts-utils.tsx:32-34 | The posts of one date, in their order; never longer than the listing. It is how the order among equal dates is stated. |
| PostsUtils.SortedListing | lib/posts-utils.tsx:32-34 | The stable sort most recent first, a reference definition independent of the array method; it keeps the length. |
| PostsUtils.InsertByDate | lib/posts-utils.tsx:32-34 | Places one post before the first later entry that is not newer; the length grows by one. |
| PostsUtils.InsertByDateSpec | lib/posts-utils.tsx:32-34 | Inserting into a sorted listing keeps it sorted, adds exactly that post, and puts it before the posts of its date that follow it. |
| PostsUtils.SortedListingSpec | lib/posts-utils.tsx:32-34 | The reference sort is sorted by non-increasing date, is a permutation of its input, and keeps the input's order among posts of the same date. |
| PostsUtils.SortedUnique | lib/posts-utils.tsx:32-34 | Two listings that are both sorted and agree on the order within every date are equal. So the stable sort has exactly one result. |
| PostsUtils.SwapKeepsDateOrder | lib/posts-utils.tsx:33 | Exchanging two neighbouring posts of different dates keeps the order within every date. |
| PostsUtils.SortByDateDesc | lib/posts-utils.tsx:32-34 | Afterwards the array is sorted by non-increasing date and is a permutation of the array before. Posts of the same date keep their relative order, as the stable `Array.prototype.sort` keeps it. |
| PostsUtils.InsertLeft | lib/posts-utils.tsx:32-34 | Extends a sorted prefix of the array by one element: afterwards the first `i + 1` elements are sorted and every element past `i` is where it was. The array stays a permutation and keeps the order within every date, since it only moves past strictly older posts. |
| PostsUtils.SwapLeftStep | lib/posts-utils.tsx:32-34 | Swapping the out-of-place post with an older left neighbour moves it one place left, keeps the rest of the prefix sorted, and leaves every post past the prefix where it was. |
| PostsUtils.SortedButSettled | lib/posts-utils.tsx:32-34 | Once the moving post is not newer than its left neighbour, or has reached the front, the whole prefix is sorted. |
| PostsUtils.SwapAdjacent | lib/posts-utils.tsx:32-34 | Exchanges two neighbours and changes nothing else. Neighbours of different dates keep every date's order. |
| PostsUtils.GetAllPosts | lib/posts-utils.tsx:28-37 | An unreadable directory gives `DirectoryUnreadable`, and a failing entry gives its error. Otherwise the result is exactly the stable sort of the loaded records: one record per entry, sorted most recent first, a permutation of the loaded records, with the directory order kept among posts of the same date. |
| PostsUtils.Truthy | lib/posts-utils.tsx:42 | JavaScript truthiness of a front-matter value; FeaturedAllFeatured and FeaturedMembers state the filter through it. |
| PostsUtils.IsFeatured | lib/posts-utils.tsx:42 | `p.isFeatured` is truthy; a missing flag reads as `undefined`. LoadedRecordFields relates it to the front-matter flag. |
| PostsUtils.Featured | lib/posts-utils.tsx:42 | The filter never lengthens the listing; FeaturedIsSubsequence, FeaturedCounts and FeaturedMembers fix its result exactly. |
| PostsUtils.FeaturedIsSubsequence | lib/posts-utils.tsx:42 | The featured posts are a subsequence of the listing. |
| PostsUtils.FeaturedAllFeatured | lib/posts-utils.tsx:42 | Every post kept has a truthy `isFeatured`. |
| PostsUtils.FeaturedCounts | lib/posts-utils.tsx:42 | Each featured post is kept as often as it occurs, and every other post is dropped. |
| PostsUtils.FeaturedMembers | lib/posts-utils.tsx:42 | A post is kept iff it is in the listing and featured, so a post with no flag is excluded. |
| PostsUtils.SubsequenceKeepsOrder | lib/posts-utils.tsx:40-44 | A subsequence of a listing sorted by date is itself sorted, and each of its elements comes from the listing. |
| PostsUtils.GetFeaturedPosts | lib/posts-utils.tsx:39-45 | An unreadable directory gives `DirectoryUnreadable`, and a failing entry gives its error. Otherwise the result is exactly the featured posts of the stable sort of the loaded records: a subsequence of it, still most recent first. |
| Markdown.AssetDir | components/posts/postContent/postContent.tsx:16 | The asset directory `/assets/img/posts/<slug>/` is 19 characters longer than the slug. |
| Markdown.EraseAll | components/posts/postContent/postContent.tsx:49-56 | Erasing the classes of a sequence of elements erases each element's classes and keeps the length. |
| PostContent.ContentClass | components/posts/postContent/postContent.tsx:50-54 | The class is `contentDark` iff the theme is `dark`, and `contentLight` for every other value. |
| PostContent.EditorStyle | components/posts/postContent/postContent.tsx:18-20 | The palette is xonokai iff the theme is `dark`, and okaidia for every other value, `""` included. |
| PostContent.HeaderImagePath | components/posts/postContent/postContent.tsx:16 | The path is the asset directory of the slug followed by the post's image name, unchanged. |
| PostContent.ImageEmbed | components/posts/postContent/postContent.tsx:30-46 | A `div` holds one image. The image's source is the asset directory followed by the original file name, its `alt` is copied, and it is 600 by 300. |
| PostContent.RenderCode | components/posts/postContent/postContent.tsx:61-75 | The copyable text is exactly `children[0]`. The second child highlights that snippet in the node's own language, with the palette of the theme. |
| PostContent.Snippet | components/posts/postContent/postContent.tsx:64 | `children[0]`, or nothing for a code node without children; RenderCode states that this is the copyable text. |
| PostContent.Render | components/posts/postContent/postContent.tsx:26-76 | The `p` and `code` dispatch at any depth. What it gives is stated by ImageParagraph, PlainParagraph, TextParagraph and CodeBlockExample, and its theme independence by ThemeOnlyRestyles. A paragraph with no children makes `node.children[0].tagName` throw. The model gives `None`, and the `None` propagates through RenderAll and RenderPost, so the whole render fails, as the thrown `TypeError` does. |
| PostContent.RenderAll | components/posts/postContent/postContent.tsx:26-76 | A successful render gives one element per node. |
| PostContent.RenderPost | components/posts/postContent/postContent.tsx:77-98 | The article: the header with HeaderImagePath, then the rendered body. ThemeOnlyRestylesPost states that the theme only restyles it. |
| PostContent.ImageParagraph | components/posts/postContent/postContent.tsx:29-46 | Only `children[0]` is inspected. A paragraph that opens with an image renders exactly as that image alone: the source is prefixed with the asset directory, `alt` is copied, and the size is fixed at 600 by 300. Any further children are dropped. |
| PostContent.PlainParagraph | components/posts/postContent/postContent.tsx:47-58 | Any other non-empty paragraph is a `<p>` whose children are exactly its rendered children. Its class is one of the two content classes. |
| PostContent.TextParagraph | components/posts/postContent/postContent.tsx:47-58 | A paragraph of plain text renders with exactly that text. |
| PostContent.CodeBlockExample | components/posts/postContent/postContent.tsx:61-75 | A `js` code block keeps its language and yields its snippet as text. |
| PostContent.ImageParagraphExample | components/posts/postContent/postContent.tsx:29-46 | `![bar](foo.png)` in the post `my-post` becomes `<div><img src="/assets/img/posts/my-post/foo.png" alt="bar" 600x300></div>`. |
| PostContent.ThemeOnlyRestyles | components/posts/postContent/postContent.tsx:49-56 | Two themes render a node equally, up to class names and palette: the same success, structure, text, image sources and alternative texts. |
| PostContent.ThemeOnlyRestylesAll | components/posts/postContent/postContent.tsx:26-76 | The same for a sequence of nodes. |
| PostContent.ThemeOnlyRestylesPost | components/posts/postContent/postContent.tsx:77-98 | The same for the whole article, header included. |
| LegacyPostContent.PostImage | components/layout/posts/postContent/postContent.tsx:23-36 | The image has class `postImg`, is 600 by 300, and has `alt` copied. Its source is the asset directory followed by the original file name. |
| LegacyPostContent.Render | components/layout/posts/postContent/postContent.tsx:18-41 | Only `p` is overridden, at any depth. ImageParagraph, PlainParagraph and CodeNotOverridden state its cases, and AgreesWithNewer relates it to the themed renderer. |
| LegacyPostContent.RenderAll | components/layout/posts/postContent/postContent.tsx:18-44 | A successful render gives one element per node. |
| LegacyPostContent.ImageParagraph | components/layout/posts/postContent/postContent.tsx:21-36 | A paragraph opening with an image becomes exactly that post image, whatever follows it. |
| LegacyPostContent.PlainParagraph | components/layout/posts/postContent/postContent.tsx:37-39 | Any other non-empty paragraph is a plain `<p>` of its rendered children. |
| LegacyPostContent.CodeNotOverridden | components/layout/posts/postContent/postContent.tsx:18-41 | A code block gets the default element, with its language and full text. |
| LegacyPostContent.AgreesWithNewer | components/layout/posts/postContent/postContent.tsx:18-44 | On a tree where no override fires, the older renderer and the themed one agree on success and on everything except classes, whatever the theme. |
| LegacyPostContent.AgreesWithNewerAll | components/layout/posts/postContent/postContent.tsx:18-44 | The same for a sequence of nodes. |
| ContactApi.Invalid | pages/api/contact.ts:15-22 | The guard clause by clause, with `name.trim === ""` as the constant false. GuardMeaning states what it means. |
| ContactApi.InvalidIntended | pages/api/contact.ts:15-22 | The guard with `name.trim() === ""`. GuardMeaningIntended states what it means. |
| ContactApi.ContainsAtIff | pages/api/contact.ts:17 | `includes("@")` holds iff some character is `@`. |
| ContactApi.TrimNonEmptyIff | pages/api/contact.ts:21 | `trim()` is non-empty iff some character is not white space. |
| ContactApi.EmailField | pages/api/contact.ts:16-17 | The email clauses reject exactly a missing email or one without `@`. |
| ContactApi.TextField | pages/api/contact.ts:20-21 | The message clauses reject exactly a missing message or one that is all white space. |
| ContactApi.GuardMeaning | pages/api/contact.ts:15-22 | The guard as written fires iff the email is missing or has no `@`, the name is missing or empty, or the message has no non-white-space character. |
| ContactApi.Handler | pages/api/contact.ts:9-29 | There is exactly one response: 422 `{msg: "invalid input"}` or 200 `{name: "John Doe"}`. It is 200 iff the email has an `@`, the name is non-empty and the message has a non-white-space character. |
| ContactApi.WhitespaceNameAccepted | pages/api/contact.ts:18-19 | Email `a@b`, name `"   "` and message `hello` get 200, because the name's `trim` is never called. |
| ContactApi.WhitespaceMessageRefused | pages/api/contact.ts:20-24 | A message of spaces gets 422, whatever the email and name. |
| ContactApi.GuardMeaningIntended | pages/api/contact.ts:15-22 | The corrected guard fires iff the email is missing or has no `@`, or the name or the message is missing or has no non-white-space character. |
| ContactApi.HandlerIntended | pages/api/contact.ts:9-29 | With the name trimmed, the response is 200 iff the email has an `@` and both the name and the message have content. Otherwise it is 422. |
| ContactApi.IntendedRefusesWhitespaceName | pages/api/contact.ts:18-19 | With the corrected guard, a name without content gets 422. |
| ContactApi.IntendedRefusesBlankMessage | pages/api/contact.ts:20-24 | With the corrected guard, a message without content gets 422. |
| ContactApi.IntendedDiffersOnlyOnBlankNames | pages/api/contact.ts:18-19 | The two handlers differ exactly on requests the guard as written accepts whose name is non-empty white space. |
| ContactForm.IsValidEmail | components/contact/contactForm.tsx:36-37 | `emailRegex.test`, decided by a scan for the first `@` and the last `.`. IsValidEmailMatchesPattern proves it equal to the pattern. |
| ContactForm.CanSend | components/contact/contactForm.tsx:39 | The send condition; SendMessage sends iff it holds, and ValidEmailNonEmpty shows its `enteredEmail` test adds nothing. |
| ContactForm.SendCompletes | components/contact/contactForm.tsx:19-23 | `sendData` returns normally iff a reply came back, its body parsed as JSON and `res.ok` held. SendMessage clears the fields iff it holds. |
| ContactForm.LastIndexOf | components/contact/contactForm.tsx:36 | Gives -1 or an index holding the character, with no copy of it after. |
| ContactForm.IsValidEmailMatchesPattern | components/contact/contactForm.tsx:36-37 | The scan `IsValidEmail` holds iff the string splits into: a non-empty local part over `[A-Z0-9._%+-]`; `@`; a non-empty domain over `[A-Z0-9.-]`; `.`; and at least two letters. Letters of either case count. |
| ContactForm.ScanFindsSplit | components/contact/contactForm.tsx:36-37 | A string the scan accepts has such a split. |
| ContactForm.SplitPassesScan | components/contact/contactForm.tsx:36-37 | A string with such a split passes the scan. |
| ContactForm.ValidEmailNonEmpty | components/contact/contactForm.tsx:36-39 | An accepted email has at least six characters, so the extra `enteredEmail` test adds nothing. |
| ContactForm.ValidEmailExample | components/contact/contactForm.tsx:36 | `ann@site.io` matches. |
| ContactForm.ShortDomainExample | components/contact/contactForm.tsx:36 | `a@b.c` does not match, because its last part has a single letter. |
| ContactForm.NoDotExample | components/contact/contactForm.tsx:36 | `ann@site` does not match. |
| ContactForm.EmptyLocalPartExample | components/contact/contactForm.tsx:36 | `@site.io` does not match. |
| ContactForm.Form.constructor | components/contact/contactForm.tsx:29-32 | All fields start as `""`. |
| ContactForm.Form.SetEmail | components/contact/contactForm.tsx:78 | The email field takes the input's value. |
| ContactForm.Form.SetName | components/contact/contactForm.tsx:89 | The name field takes the input's value. |
| ContactForm.Form.SetMessage | components/contact/contactForm.tsx:100 | The message field takes the input's value. |
| ContactForm.Form.SendMessage | components/contact/contactForm.tsx:6-57 | A send happens iff the email matches and all three fields are non-empty. The payload is exactly the three field values. Invalid input sets the error message and leaves the fields alone. A completed send clears the three fields. A failed send (no reply, a non-JSON body, or `!res.ok`) is swallowed: fields and error are unchanged. |
| ContactForm.SentPassesServerUnlessBlank | components/contact/contactForm.tsx:39-45 | Whatever the form sends has an `@` and a non-empty name. The corrected endpoint then accepts it iff the name and the message have content. |
| ContactForm.BlankMessageRefusedAfterSend | components/contact/contactForm.tsx:39-49 | A message of white space passes the form, but the endpoint answers 422. |
| Analytics.Locale | lib/analytics.ts:57 | `navigator.language`, or `unknown` without a navigator; SendAnalyticsEvent puts it in the event. |
| Analytics.SecondField | lib/analytics.ts:114 | The field is the text after the first `-`, up to the next `-` or the end, and holds no `-`. |
| Analytics.InferCountry | lib/analytics.ts:112-115 | A locale without `-` gives `unknown`. Otherwise the result is the upper-cased second field of the locale. |
| Analytics.InferCountryRegion | lib/analytics.ts:111-114 | `en-US` gives `US`. |
| Analytics.InferCountryTrailingDash | lib/analytics.ts:114 | `en-` gives `""`. |
| Analytics.InferCountryNoDash | lib/analytics.ts:113 | `en` gives `unknown`. |
| Analytics.InferCountryScript | lib/analytics.ts:114 | `zh-hant-TW` gives `HANT`: only the second field counts. |
| Analytics.MobileAgent | lib/analytics.ts:106 | The agent pattern finds `mobile`, `android`, `iphone` or `ipad`. DeviceType states the device through it. |
| Analytics.DeviceType | lib/analytics.ts:103-109 | Without a window the device is `unknown`. Otherwise it is `mobile` iff the lower-cased agent contains `mobile`, `android`, `iphone` or `ipad`, and `desktop` if not. |
| Analytics.DeviceTypeIgnoresCase | lib/analytics.ts:105-106 | An agent containing `iPhone` is mobile. |
| Analytics.GuestId | lib/analytics.ts:95 | The new id starts with `guest_`. |
| Analytics.AlreadySent | lib/analytics.ts:47-48 | The session flag is present and truthy. |
| Analytics.StoredId | lib/analytics.ts:93-94 | The stored id when it is present and truthy. GetUserId is stated through it. |
| Analytics.GuardStep | lib/analytics.ts:46-53 | One call of the guard. SendAnalyticsEvent is proved to follow it, and AtMostOncePerSession and NoWindowAlwaysSends state what repeated calls do. |
| Analytics.AtMostOncePerSession | lib/analytics.ts:46-53 | In a browser, at most one of any number of calls attempts a send, and none does once the flag is set. The flag is set before the send, so a failed send blocks later ones too. |
| Analytics.AlreadySentStays | lib/analytics.ts:47-50 | Once the session flag is set, no call attempts a send. |
| Analytics.NoWindowAlwaysSends | lib/analytics.ts:46 | Without a window there is no guard: every call attempts a send. |
| Analytics.AnalyticsClient.constructor | lib/analytics.ts:46-47 | Starts with the given window flag and storage. |
| Analytics.AnalyticsClient.GetUserId | lib/analytics.ts:91-101 | Without a window it returns `unknown_user_<country>_<locale>` and leaves storage alone. With a window it returns the stored id unchanged if there is one. Otherwise it stores and returns `guest_<random>_<country>_<locale>`. Either way the stored id is then the returned one, so a later call returns it. |
| Analytics.AnalyticsClient.SendAnalyticsEvent | lib/analytics.ts:43-89 | It sends nothing iff the window's session flag is already set, and it sets that flag before sending. The event carries the name, the constant source `CodePill`, the locale (`unknown` without a language), the country inferred from the locale, the device type and the path. Its user id is the stored id if there is one, and local storage is then unchanged. With a window and no stored id, it is `guest_<random>_<country>_<locale>`, and local storage gains exactly that id. Without a window it is `unknown_user_<country>_<locale>`, and storage is unchanged. |
| MainNavigation.Toggled | components/layout/navigation/main-navigation.tsx:12-18 | A swap turns `dark` to `light` and `light` to `dark`, and keeps any other value. |
| MainNavigation.Persisted | components/layout/navigation/main-navigation.tsx:21 | The value saved is `light` iff the theme was `dark`, and `dark` otherwise. |
| MainNavigation.ToggleTwiceRestores | components/layout/navigation/main-navigation.tsx:12-18 | Two swaps restore the theme. |
| MainNavigation.PersistedMatchesToggled | components/layout/navigation/main-navigation.tsx:12-22 | For dark and light, the saved value is the new theme. For any other theme, the theme stays but `dark` is saved. |
| MainNavigation.JsonString | components/layout/navigation/main-navigation.tsx:22 | `JSON.stringify` of a string without escapes. JsonRoundTrip states that ParseJsonString inverts it. |
| MainNavigation.LoadedTheme | components/layout/navigation/main-navigation.tsx:27-34 | The theme read back from storage, `light` when nothing is stored. ReloadAfterSwap states that it returns what a swap saved. |
| MainNavigation.ParseJsonString | components/layout/navigation/main-navigation.tsx:30 | A parsed value is a string without escapes whose JSON form is the stored text. |
| MainNavigation.JsonRoundTrip | components/layout/navigation/main-navigation.tsx:22 | Parsing the JSON form of such a string gives the string back. |
| MainNavigation.ReloadAfterSwap | components/layout/navigation/main-navigation.tsx:19-35 | After a swap, a reload sets the theme to the value the swap saved. |
| MainNavigation.ThemeToggle.constructor | components/layout/navigation/main-navigation.tsx:7 | Starts with the given theme, storage and window flag. |
| MainNavigation.ThemeToggle.Checked | components/layout/navigation/main-navigation.tsx:9 | The box is checked iff the theme is `dark`. |
| MainNavigation.ThemeToggle.SwapThemes | components/layout/navigation/main-navigation.tsx:11-24 | The theme becomes the toggled old theme. With a window, storage holds the JSON of the persisted value; without one, storage is unchanged. |
| MainNavigation.ThemeToggle.LoadTheme | components/layout/navigation/main-navigation.tsx:26-37 | With nothing stored the theme becomes `light`. With a stored JSON string it becomes that string. Stored text that is not a plain JSON string leaves the theme as it was and gives `ok == false`. |

## Left out

- File system access (`fs.readdirSync`, `fs.readFileSync`) and the gray-matter parser. The listing is an `Option` input, and the files are a map from path to parsed front-matter and body.
- `path.join` normalisation. Paths are plain concatenations.
- JavaScript `Date`:
  - Dates are integer timestamps in whole seconds. The record stores `data.date.toString()` (lib/posts-utils.tsx:21), which drops milliseconds, so the comparator at lib/posts-utils.tsx:33 sees dates to the second. Two posts less than a second apart compare equal in the code; the model has no unit finer than a second, so it cannot express such a pair.
  - PostsUtils.LoadPost: a front-matter date that is a string, a boolean or a number loads in the code. The model refuses it with its own `UnparsedDate` error, because it does not parse dates.
  - PostsUtils.LoadPostOutcome: it states the same `UnparsedDate` refusal, so a post with such a date is reported as failing where the code loads it.
  - The record keeps the timestamp, not its `toString()` text.
- YAML arrays and objects among front-matter values. Values are strings, numbers, booleans, timestamps, null and undefined.
- The markdown parser and the syntax highlighter:
  - Documents are given as node trees.
  - A highlighted block is a palette, a language and its text.
- `copySnippet`'s clipboard write, `linkTarget`, the image `priority` flag and the CSS modules. Classes are kept only as names.
- The `fetch` call to `/api/contact`. Its outcome is a `Reply` parameter.
- The form's `setTimeout` that clears the error after two seconds, and the unused `requestStatus` state.
- Request body values that are not strings.
- ContactForm.Form.SendMessage: the model treats the send and the field reset as one step. In the code the three setters run only after `await sendData(...)` resolves (components/contact/contactForm.tsx:41-48). So text typed while the request is pending is cleared as well, and a second click during the wait sends a second request. The model has no pending state to express either.
- Console output: the endpoint's log of the request, the older renderer's `IMG RENDER` log, and the analytics "Skipping..." and "Sending..." logs.
- Markdown elements other than paragraphs, images and code are one `Element` constructor. Its tag is never `p`, `img` or `code`, which have their own constructors.
- `Math.random().toString(36).substring(2, 15)`. The random part of a guest id is a parameter.
- The analytics post itself and its reply: the timestamp (`source: "CodePill"` is kept as the event's `source` field), the response logging, and the thrown-and-caught errors of `fetch`.
- Exceptions raised by browser storage.
- Unicode case mapping. `toLowerCase`/`toUpperCase` are modelled on ASCII letters only.
- The commented-out older analytics code (lib/analytics.ts:1-41).
- JSON escaping: only strings that need no escapes are written and parsed.
- MainNavigation.LoadedTheme: stored text that is not a quoted plain string gives `None`. In the code, `JSON.parse` would either give another value or throw.
- MainNavigation.ThemeToggle.LoadTheme: stored text that is not a quoted plain string gives `ok == false` and keeps the theme. In the code, `JSON.parse` would either give another value or throw inside the effect.
- How often the navigation effect re-runs (its dependency list). The load is one method called whenever it runs.
- The Stripe checkout and webhook routes, the success and fail pages, the view components, `next.config.js` and `proj/index.js`.

## Findings

| source | as written | input that shows it | evidently intended | confidence | as-written member | corrected member |
|---|---|---|---|---|---|---|
| pages/api/contact.ts:19 | `name.trim === ""` compares the `trim` method with a string, so the clause is always false | email `a@b`, name `"   "`, message `hello` gets 200 | `name.trim() === ""`, refusing a blank name like a blank message | high; not executed | ContactApi.WhitespaceNameAccepted | ContactApi.IntendedRefusesWhitespaceName |
