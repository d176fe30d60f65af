# BioForge site logic in Dafny

This project models the non-visual logic of the BioForge research site. It has four pieces.

- **The page scroller's edge-navigation gate.** A project's sections form an ordered route list. At the bottom of the scroll surface, a downward wheel movement (deltaY > 0), PageDown, ArrowDown or Space, or an upward swipe of more than 40 px goes to the next route. At the top, an upward wheel movement, PageUp or ArrowUp, or a downward swipe of more than 40 px goes back to the previous route. A gesture in the other direction does nothing; a PageUp at the bottom, for example, changes nothing. A cooldown flag swallows the events that follow until its timer fires. `PageScroll.Step` is the specification of one event. Class `PageScroll.PageScroller` keeps the busy flag, the recorded touch start and the log of pushed routes, and has one method per event handler. Each method's contract ties its new state to `Step`.
- **Content-item normalisation, in two versions.**
  - The server version (`FetchContent`) coerces a loosely typed database row into a TEXT, CODE or IMAGE item, or skips it.
  - The client version (`ContentRenderer`) does the same to the blocks handed to the renderer.
  - JavaScript's `unknown` is the value type `Js.Value`. Code that throws, for example reading a property of `null` or upper-casing a non-string, gives `Js.TypeError`.
  - Both versions run `map(...).filter(Boolean)` through one generic function, `Js.MapFilter`.
- **Path and slug strings.** `NavBar` covers the path segments, the breadcrumb trail, whether the trail is shown and the active-link test. `TitleFromSlug` covers the title made from a route slug.
- **The static project catalogue** and its first-match lookup by slug (`Projects`).

`Strings` models the JavaScript string operations the code uses:
- `trim` with the ECMAScript whitespace set;
- `split` and `join`;
- single-character `replace`;
- the `/\$0$/` clean-up;
- ASCII upper case and `\w`.

`Wrappers` holds `Option`.

The scroller navigates on the first qualifying event and then applies the cooldown. There is no nudge counter and no rest timer, so a single downward wheel event at the bottom already pushes the next route (see `PageScroll.CooldownScenario`).

## Model

| member | source | states |
|---|---|---|
| PageScroll.AtBottom | components/PageScroller.tsx:51-60 | at the bottom exactly when at most edgeThreshold pixels of content remain below the viewport: scrollY + innerHeight against the document height for the window, scrollTop + clientHeight against scrollHeight for an element |
| PageScroll.AtTop | components/PageScroller.tsx:62-65 | at the top exactly when the scroll offset (scrollY for the window, scrollTop for an element) is at most edgeThreshold |
| PageScroll.PrevRoute | components/PageScroller.tsx:32 | a previous route is a listed route, and exists only when the pathname is listed and is not the first route; an unlisted pathname has none |
| PageScroll.NextRoute | components/PageScroller.tsx:33 | a next route is a listed route, and exists only when the pathname is listed and the list has at least two routes; an unlisted pathname has none |
| PageScroll.CanGoNext | components/PageScroller.tsx:78 | the scroller can go forward exactly when the gate is free and a non-empty route follows the first occurrence of the pathname, which therefore is listed |
| PageScroll.CanGoPrev | components/PageScroller.tsx:79 | the scroller can go back exactly when the gate is free and a non-empty route precedes the first occurrence of the pathname, which therefore is listed and not first |
| PageScroll.Target | components/PageScroller.tsx:90-96 | a handler's branch picks a route only when the gate is free; it is a non-empty listed route, the next one for a downward gesture at the bottom or the previous one for an upward gesture at the top; without a gesture nothing is picked |
| PageScroll.Trigger | components/PageScroller.tsx:67-72 | the default action is prevented exactly when a branch was taken by a preventing handler; a push needs a free gate and is the non-empty chosen route; a taken branch leaves the gate busy; with the gate busy or no branch the state is unchanged and nothing is pushed; the location and touch start never change |
| PageScroll.Step | components/PageScroller.tsx:86-124 | a push needs a free gate, leaves it busy and pushes a non-empty listed route; the default action is prevented only for a wheel or key event that pushes; only a re-render moves the location |
| PageScroll.FindIndex | components/PageScroller.tsx:31 | the result is the first index whose route equals the pathname, and it is -1 exactly when the pathname is not in the list |
| PageScroll.Neighbours | components/PageScroller.tsx:31-33 | the previous route exists iff idx > 0 and is routes[idx-1]; the next exists iff 0 <= idx < len-1 and is routes[idx+1]; the first route has no previous, the last (when it occurs nowhere else) has no next, an absent pathname has neither |
| PageScroll.EdgeMonotone | components/PageScroller.tsx:51-65 | widening the threshold keeps a top or bottom edge an edge, for window and element surfaces; with a non-negative threshold an offset of 0 is at the top and a surface scrolled to its end is at the bottom |
| PageScroll.WheelRouting | components/PageScroller.tsx:81-97 | a wheel event inside a nested scrollable region, or with deltaY == 0, changes nothing; deltaY > 0 pushes iff not busy, a non-empty next route exists and the surface is at the bottom, and the push is routes[idx+1]; deltaY < 0 is the mirror image at the top with routes[idx-1]; the default action is prevented exactly when a route is pushed, a push sets busy, no push leaves the state as it was |
| PageScroll.KeyRouting | components/PageScroller.tsx:99-109 | PageDown, ArrowDown and Space push routes[idx+1] iff not busy, it exists and is non-empty and the surface is at the bottom; PageUp and ArrowUp push routes[idx-1] under the mirror conditions at the top; any other key changes nothing; the default action is prevented exactly when a route is pushed, and a push sets busy |
| PageScroll.TouchEndRouting | components/PageScroller.tsx:114-124 | without a recorded start nothing happens; otherwise dy = start - end, dy > 40 can only push routes[idx+1] (iff not busy, present, at the bottom), dy < -40 can only push routes[idx-1] (mirror), \|dy\| <= 40 never pushes, the default action is never prevented, and the start is cleared in every case |
| PageScroll.CooldownGate | components/PageScroller.tsx:67-72 | while busy no event pushes; a push happens only when not busy and leaves the gate busy; only the timer event clears the flag; newly becoming busy always comes with a push of a route from the list |
| PageScroll.AtMostOnePushPerCooldown | components/PageScroller.tsx:67-72 | in any run of events without a timer firing, at most one route is pushed, none at all if the gate starts busy, and after a push the gate is still busy at the end |
| PageScroll.PushesAreRoutes | components/PageScroller.tsx:86-124 | every route pushed during any run of events is a non-empty member of the route list |
| PageScroll.PageScroller.constructor | components/PageScroller.tsx:19-29 | the scroller starts not busy, with no touch start and an empty push log, on the given routes, pathname, cooldown and threshold |
| PageScroll.PageScroller.WithDefaults | components/PageScroller.tsx:19-29 | a scroller built without the optional arguments has the 800 ms cooldown and the 24 px edge threshold, and starts like the constructor |
| PageScroll.PageScroller.WithCooldown | components/PageScroller.tsx:67-72 | when busy, nothing changes; otherwise busy is set and the route is pushed exactly once if it is non-empty (`route && router.push(route)`) |
| PageScroll.PageScroller.OnWheel | components/PageScroller.tsx:86-97 | the new state, the appended pushes and the returned preventDefault flag are those of `Step` on a wheel event |
| PageScroll.PageScroller.OnKey | components/PageScroller.tsx:99-109 | the new state, the appended pushes and the preventDefault flag are those of `Step` on a key press |
| PageScroll.PageScroller.OnTouchStart | components/PageScroller.tsx:111-113 | records the touch's start position and pushes nothing |
| PageScroll.PageScroller.OnTouchEnd | components/PageScroller.tsx:114-124 | the new state and the appended pushes are those of `Step` on the end of a touch |
| PageScroll.PageScroller.CooldownExpire | components/PageScroller.tsx:71 | the timer firing clears the busy flag and changes nothing else |
| PageScroll.PageScroller.PathnameChange | components/PageScroller.tsx:25-33 | a re-render at a new pathname moves the current location while the busy flag and touch start persist |
| FetchContent.ToNumber | features/projects/server/fetchContent.ts:57-61 | a finite number comes back unchanged, and infinities and NaN give undefined; a string gives `Number(s)` iff it is non-blank after trimming and does not convert to NaN; every other value gives undefined; a result is never NaN |
| FetchContent.StripAccidentalSuffix | features/projects/server/fetchContent.ts:63-67 | undefined and "" come back unchanged; any other URL loses one trailing "$0" and is then trimmed, so a non-empty result has no leading or trailing whitespace |
| FetchContent.SuffixBeforeTrim | features/projects/server/fetchContent.ts:66 | example: the "$0" is removed before trimming, so "x$0 " becomes "x$0" |
| FetchContent.SafeParse | features/projects/server/fetchContent.ts:119-126 | a string that parses gives the parsed value, and one on which `JSON.parse` throws gives {} |
| FetchContent.NormalizeItem | features/projects/server/fetchContent.ts:69-117 | a produced item has one of the types TEXT, CODE or IMAGE, the row's id, order and sectionId, and a title and subtitle that are never undefined |
| FetchContent.Parsed | features/projects/server/fetchContent.ts:71 | string `data` gives what `JSON.parse` returns, or {} when it throws; any other `data` is used as is |
| FetchContent.Payload | features/projects/server/fetchContent.ts:74 | the payload is never null or undefined |
| FetchContent.PayloadChoice | features/projects/server/fetchContent.ts:71-74 | the payload is parsed.data when present, else parsed, else {}; a string `data` that `safeParse` cannot parse gives {} |
| FetchContent.TypeDecision | features/projects/server/fetchContent.ts:76-116 | the type is parsed.type when present, else the row's, upper-cased; a present non-string parsed.type throws; otherwise the row gives an item iff the type is TEXT, CODE or IMAGE, and the item's type is that one |
| FetchContent.ItemTypeOf | features/projects/server/fetchContent.ts:77 | it throws exactly when parsed.type is present and not a string; a result has no lower-case ASCII letter; it is parsed.type upper-cased when that is a string, else the row's type upper-cased |
| FetchContent.TypeIgnoresCase | features/projects/server/fetchContent.ts:77 | a row's type and its upper-cased form normalise to the same result |
| FetchContent.BaseFields | features/projects/server/fetchContent.ts:79-85 | id, order and sectionId are the row's; the title is the row's, else parsed.title, else null; likewise the subtitle |
| FetchContent.TextAndCodeFields | features/projects/server/fetchContent.ts:87-96 | TEXT with no text gives "" and with string text keeps it; CODE likewise for code; the language is set exactly when the payload's language is truthy, and equals a non-empty string language |
| FetchContent.StringIfTruthy | features/projects/server/fetchContent.ts:94-104 | a value is given exactly when the input is truthy; a string input gives itself, which is then non-empty |
| FetchContent.StringOrEmpty | features/projects/server/fetchContent.ts:88-93 | null and undefined give "", and a string gives itself |
| FetchContent.ImageDataOf | features/projects/server/fetchContent.ts:99-105 | the data is IMAGE data whose width and height are never NaN, with a path exactly when the payload's path is truthy; `ImageDataFields` states every field |
| FetchContent.ImageDataFields | features/projects/server/fetchContent.ts:99-110 | the image data read from a payload: width and height are `toNumber`'s result, else 1600 and 900, and are never NaN; url, path, bucket, alt and caption are undefined exactly when the payload's value is falsy (no "images" default); a non-empty string url is stripped of "$0" and trimmed |
| FetchContent.ImageFields | features/projects/server/fetchContent.ts:98-112 | the data of a normalised IMAGE item has the width and height defaults, the url clean-up and the falsy-means-undefined fields, all read from the row's payload |
| FetchContent.NormalizeRows | features/projects/server/fetchContent.ts:152-153 | the list is produced iff no row throws, is no longer than the rows, and each element is the item normalised from some row |
| FetchContent.NormalizeRowsAppend | features/projects/server/fetchContent.ts:152-153 | normalising a concatenation of rows gives the concatenation of the results, so kept items are in row order; it throws iff either part does |
| FetchContent.NormalizeOneRow | features/projects/server/fetchContent.ts:152-153 | a single row gives its item, nothing when skipped, and throws iff its normalisation throws |
| FetchContent.SectionItems | features/projects/server/fetchContent.ts:152-155 | a null query result gives [], and any other result is the normalised rows |
| Js.ToJsString | features/projects/server/fetchContent.ts:88 | `String(v)` of a string is the string; an empty array gives "", a one-string array gives that string; every value other than a string or an array gives a non-empty string |
| Js.MapFilter | features/projects/server/fetchContent.ts:153 | `xs.map(f).filter(Boolean)` succeeds iff f throws on no element, and keeps at most as many results as elements |
| Js.MapFilterSources | features/projects/server/fetchContent.ts:153 | each kept result is the object f returned for some element |
| Js.MapFilterAppend | features/projects/ContentRenderer.tsx:98-135 | the kept results of a concatenation are the kept results of the parts, in order, and it throws iff either part does |
| Js.MapFilterOne | features/projects/ContentRenderer.tsx:98-135 | one element gives f's object, or nothing when f returns null, and throws iff f does |
| Strings.Trim | features/projects/server/fetchContent.ts:66 | the result does not start or end with whitespace, and it is the part of the input that sits between a whitespace prefix and a whitespace suffix |
| Strings.StripDollarZero | features/projects/server/fetchContent.ts:66 | the result is the input, or the input less a final "$0", and it is the latter whenever the input ends in "$0" |
| Strings.Upper | features/projects/server/fetchContent.ts:77 | upper-casing keeps the length and maps each character through ASCII upper case |
| Strings.ReplaceChar | lib/functions/titleFromSlug.ts:9 | replacing keeps the length; every occurrence of the character is replaced and nothing else changes |
| Strings.StartsWith | components/NavBar.tsx:52 | `s.startsWith(p)` holds exactly when p is no longer than s and agrees with s at each of its positions; it implies the case-insensitive test |
| Strings.StartsWithIgnoreCase | features/projects/ContentRenderer.tsx:63 | the case-insensitive prefix test holds exactly when p is no longer than s and each of its characters equals s's up to ASCII upper case |
| Strings.Join | components/NavBar.tsx:25 | `join` has no contract of its own: `Strings.Split` states that joining the pieces of a split gives the input, and `Strings.SplitJoin` that splitting undoes a join; `Strings.JoinEndsWithLast` states that a join ends with its last part |
| Strings.JoinEndsWithLast | components/NavBar.tsx:25 | a joined string ends with its last part |
| Strings.Split | components/NavBar.tsx:20 | there is at least one piece, no piece holds the separator, and joining the pieces with it gives back the input |
| Strings.SplitJoin | components/NavBar.tsx:20 | splitting undoes joining when no part holds the separator |
| ContentRenderer.IsHttpUrl | features/projects/ContentRenderer.tsx:62-64 | an http(s) URL is truthy and its string has at least 7 characters; null and undefined never are |
| ContentRenderer.HttpUrlOfString | features/projects/ContentRenderer.tsx:62-64 | a string is an http(s) URL iff it starts with "http://" or "https://" in any ASCII case; such a URL has at least 7 characters; undefined, null and "" are not |
| ContentRenderer.HttpUrlExamples | features/projects/ContentRenderer.tsx:63 | example: "HTTPS://x" is accepted and "ftp://x" is not |
| ContentRenderer.StripAccidentalSuffix | features/projects/ContentRenderer.tsx:66-68 | a non-string comes back unchanged; a string stays a string, is no longer than before, and if non-empty has no whitespace at either end |
| ContentRenderer.StripAgreesWithServer | features/projects/ContentRenderer.tsx:66-68 | on strings the client clean-up equals the server's |
| ContentRenderer.NumberOr | features/projects/ContentRenderer.tsx:92-93 | a number is kept and anything else gives the default |
| ContentRenderer.AsImagePayload | features/projects/ContentRenderer.tsx:80-95 | throws exactly on null or undefined input; the bucket is never nullish; a flat input (no `data`) has its own path and alt copied |
| ContentRenderer.ImagePayloadChoice | features/projects/ContentRenderer.tsx:80-95 | throws iff the input is null or undefined; reads input.data when it is defined, else the input; bucket defaults to "images" when nullish; width and height default to 1600 and 900 when not numbers; url is cleaned; path, alt and caption are copied |
| ContentRenderer.OrUndefined | features/projects/ContentRenderer.tsx:102-103 | null becomes undefined and every other value is kept |
| ContentRenderer.NormalizeItem | features/projects/ContentRenderer.tsx:100-133 | it throws only for a null or undefined item or an IMAGE item, and a produced block's title and subtitle are never null |
| ContentRenderer.ItemDecision | features/projects/ContentRenderer.tsx:98-135 | an item throws iff it is null or undefined or is an IMAGE without data; otherwise it gives a block iff its type is exactly TEXT, CODE or IMAGE, of that type, with a null title or subtitle turned into undefined |
| ContentRenderer.TextAndCodeDefaults | features/projects/ContentRenderer.tsx:101-122 | missing text or code becomes "", present values are kept; a present language is kept, a null one becomes undefined, so it is never null |
| ContentRenderer.NormalizeItems | features/projects/ContentRenderer.tsx:98-135 | the list is produced iff no item throws and is no longer than the input |
| ContentRenderer.NormalizeItemsAppend | features/projects/ContentRenderer.tsx:98-135 | normalising a concatenation concatenates the results, preserving order; an item of unknown type contributes nothing |
| ContentRenderer.KeepsKnownItems | features/projects/ContentRenderer.tsx:98-135 | the number of blocks is the number of items whose type is TEXT, CODE or IMAGE |
| ContentRenderer.ItemsList | features/projects/ContentRenderer.tsx:252-255 | an array prop is used as is and any other prop becomes a one-element list |
| ContentRenderer.RenderedBlocks | features/projects/ContentRenderer.tsx:252-261 | rendering succeeds iff no item of the list throws; a single item gives at most one block and an array at most one per element |
| ContentRenderer.SingleItemIsWrapped | features/projects/ContentRenderer.tsx:252-260 | a non-array item renders as the list holding it, exactly as the one-element array does |
| NavBar.NonEmpty | components/NavBar.tsx:20 | the filtered list is no longer than the input and holds only non-empty parts from it |
| NavBar.PathSegments | components/NavBar.tsx:20 | every segment is non-empty and holds no "/" |
| NavBar.NonEmptyAppend | components/NavBar.tsx:20 | the filter of a concatenation is the concatenation of the filters, so every non-empty part is kept, in order |
| NavBar.NonEmptyOne | components/NavBar.tsx:20 | a single part is kept iff it is non-empty |
| NavBar.NonCanonicalPath | components/NavBar.tsx:20 | example: the segments of "/a//b/" are "a" and "b" |
| NavBar.NonEmptyOfNonEmpty | components/NavBar.tsx:20 | filtering a list with no empty part keeps it whole |
| NavBar.NonEmptyIsEmpty | components/NavBar.tsx:20 | the filter leaves nothing iff every part is empty |
| NavBar.PathSegmentsOfJoin | components/NavBar.tsx:20 | the segments of "/" followed by non-empty, slash-free segments joined with "/" are those segments |
| NavBar.CanonicalPathRecovered | components/NavBar.tsx:20 | for "/" or a path that starts with "/", does not end with "/" and has no "//", joining the segments behind "/" gives back the path |
| NavBar.SplitHasNoEmptyPiece | components/NavBar.tsx:20 | a string without a leading or trailing "/" and without "//" splits into non-empty pieces |
| NavBar.SplitAllEmpty | components/NavBar.tsx:20 | every piece of the split is empty iff the string is made of "/" only |
| NavBar.Crumbs | components/NavBar.tsx:22-34 | the trail starts with Home and has one more crumb than there are segments; among the segment crumbs exactly the last has no link |
| NavBar.CapitalizeFirst | components/NavBar.tsx:28 | keeps the length and every character after the first; the first is upper-cased when it is an ASCII letter and stays a word character exactly when it was one |
| NavBar.CrumbHref | components/NavBar.tsx:25 | a crumb link starts with "/" and ends with its own segment; `NavBar.CrumbHrefsChain` relates neighbouring links |
| NavBar.Label | components/NavBar.tsx:26-28 | a label has its segment's length and holds no "-" |
| NavBar.CrumbsShape | components/NavBar.tsx:22-34 | there is one crumb per segment after Home ("/"); each is labelled from its segment; every crumb but the last has a link, the last segment's has none, and segment k's link is "/" followed by segments 0..k joined by "/" |
| NavBar.CrumbHrefsChain | components/NavBar.tsx:25 | each crumb link is the previous link followed by "/" and the next segment, so each is a prefix of the next, and all start with "/" |
| NavBar.LabelShape | components/NavBar.tsx:26-28 | a label has its segment's length and no "-"; each "-" becomes a space, later characters are kept, and a first character that is not "-" is upper-cased |
| NavBar.ShowBreadcrumb | components/NavBar.tsx:35 | the trail is shown exactly when the path has a segment |
| NavBar.IsActive | components/NavBar.tsx:52 | an active link's href is no longer than the path, and the empty href is active everywhere |
| NavBar.ShowBreadcrumbIff | components/NavBar.tsx:35 | the trail is shown iff there is a segment, that is iff the path has a character other than "/" |
| NavBar.HomeAlwaysActive | components/NavBar.tsx:52 | the Home link "/" is active on every path that starts with "/" |
| NavBar.ActiveOnSharedPrefix | components/NavBar.tsx:52 | example: the test is a string prefix, so "/projects" is active on "/projects-archive" |
| TitleFromSlug.TitleFromSlug | lib/functions/titleFromSlug.ts:1-11 | the title has the length of the slug string |
| TitleFromSlug.CapitalizeWords | lib/functions/titleFromSlug.ts:10 | the result has the input's length |
| TitleFromSlug.CapitalizeWordsAt | lib/functions/titleFromSlug.ts:10 | each character is upper-cased iff it is a word character at the start or after a non-word character; every other character is kept |
| TitleFromSlug.TitleChars | lib/functions/titleFromSlug.ts:8-10 | the title has the slug string's length; each position is the hyphen-replaced character, upper-cased exactly at word starts |
| TitleFromSlug.TitleChanges | lib/functions/titleFromSlug.ts:9-10 | the title holds no "-", and a character differs from the slug string's iff it is a "-" or a lower-case ASCII letter at a word start |
| TitleFromSlug.SlugString | lib/functions/titleFromSlug.ts:2-7 | a string slug is used as is; a missing slug or an empty array gives ""; an array's string starts with its first part |
| TitleFromSlug.SlugPartsRecovered | lib/functions/titleFromSlug.ts:6 | splitting an array slug's string at "-" gives back the parts when none of them holds a "-" |
| TitleFromSlug.PartsAreJoined | lib/functions/titleFromSlug.ts:2-7 | an array slug gives the title of its "-"-joined string; an empty array and a missing slug give "" |
| TitleFromSlug.Idempotent | lib/functions/titleFromSlug.ts:8-10 | the title of a title is the same title |
| Projects.GetAllProjects | lib/projects.ts:8-10 | the catalogue is returned unchanged |
| Projects.FindBySlug | lib/projects.ts:13 | the result is null iff no entry has the slug; otherwise it has that slug and is the first entry in list order with it |
| Projects.GetProjectBySlug | lib/projects.ts:12-14 | null iff no catalogue entry has the slug; otherwise a catalogue entry with that slug |
| Projects.CatalogueLookups | lib/projects.ts:1-14 | example: the one known slug finds its entry and an unknown slug finds nothing |

## Left out

- Prefetching the neighbouring routes (components/PageScroller.tsx:36-39): it only warms a cache and does not affect navigation.
- Resolving the scroll container and attaching and detaching listeners (components/PageScroller.tsx:42-49, 126-139): plumbing. The result is the `Surface` passed with each event, window or element, and `insideNested` stands for the `closest(...)` test.
- `setTimeout`: it becomes the `CooldownExpire` event. At most one timer is pending at a time because one is only started when the gate is not busy. The cooldown's duration is kept, but time is not modelled.
- `router.push`: it becomes the `pushed` log. `preventDefault` becomes the `prevented` result of `OnWheel` and `OnKey`.
- The routes list is a constant of each scroller. A re-render with a different list is not modelled; only a pathname change is.
- Fractional numbers are left out. Scroll offsets, `deltaY` and touch positions are integers, since only comparisons matter. Data numbers are integers or NaN/±Infinity. `String(n)` for an integer of magnitude 1e21 or more (exponent notation) is not modelled: `NatToDecimal` writes all digits.
- `JSON.parse` and the string branch of `Number(...)` are parameters of the model: `jsonParse`, with None standing for a throw, and `numberOf`.
- Objects are their own enumerable properties. Prototype members (for example a `type` key inherited by an array) and custom `toString` methods are not modelled, so `String` of an object is "[object Object]".
- Strings.Upper: upper-casing maps ASCII letters only, so it is weaker than `toUpperCase`, which also maps non-ASCII letters ("ı" to "I", "ß" to "SS"). `\w` without the `u` flag is ASCII, as modelled. `StartsWithIgnoreCase` is exact for the one `/i` pattern, `^https?:\/\/`, because that pattern is pure ASCII and the non-Unicode `i` flag never folds a non-ASCII character to an ASCII one.
- The database queries of `fetchSectionContent` (features/projects/server/fetchContent.ts:128-150), `getPublicUrl`, the image component's asynchronous source lookup (features/projects/ContentRenderer.tsx:164-222) and the `console.warn` calls: I/O.
- The remaining JSX rendering and the mobile-menu toggle of the navigation bar: pure UI with no logic to prove.
