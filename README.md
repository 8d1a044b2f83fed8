# Facebook Group Parser — a Dafny model of the import core

The Facebook Group Parser WordPress plugin reads the feed of a Facebook
group through the Graph API and turns every item it has not seen before
into a draft post. Each draft gets:

- a title cut to 80 characters, with "New Post" when the message is empty;
- the message as its body;
- a category picked by keyword;
- a featured image;
- up to ten attachment images, each prepended to the body;
- a video player on top of the body;
- optionally, the item's comments.

A WordPress cron event runs the import. The event's recurrence comes from
a settings option. An admin form stores the keyword table.

This project models that core in Dafny and proves properties of it. It has
one module per concern:

| module | file | models |
|---|---|---|
| `Wrappers` | wrappers.dfy | `Option` and `Result` |
| `Strings` | strings.dfy | PHP string helpers: truthiness, `stripos`, `explode`, `trim`, decimal rendering |
| `Urls` | urls.dfy | `parse_url` (simplified), `fgp_clean_image_url`, the decision of `fgp_is_valid_image_url` |
| `Keywords` | keywords.dfy | the keyword table (an ordered PHP array) and `fgp_save_category_keywords` |
| `Classifier` | classifier.dfy | `fgp_determine_subcategory_from_message` |
| `Schedule` | schedule.dfy | the `cron_schedules` filter, WordPress's event list, `fgp_schedule_cron` |
| `FeedClient` | feed_client.dfy | class `FacebookAPI` and `getGroupPosts` |
| `Importer` | importer.dfy | `fgp_monitor_facebook_group` over a store of posts and comments |

Code that changes state is modelled with classes and methods:

- the site's posts and comments are `Importer.Site`;
- the cron event list is `Schedule.Cron`;
- the API client is `FeedClient.FacebookApi`.

Each method is proved against a pure specification function, and the
lemmas are stated about those functions. The import loop is
`Site.ImportAll`, specified by `ImportPosts`. The attachment loop of
`getGroupPosts` is `NormaliseItem`, specified by `Normalised`.

The outside world enters as values:

- the decoded feed response;
- a `World` holding:
  - the HEAD answer for each URL;
  - the attachment ID `media_sideload_image` gives for each URL, or none
    on error;
  - `esc_attr`;
  - the stored keyword table;
- the options, as a `Config`.

Three behaviours of the code are kept as written:

- **Comments are never imported.** `getGroupPosts` resets
  `$post['comments']` to an empty list before it checks for
  `$post['comments']['data']`, so every normalised item has no comments
  (`FeedClient.FetchedCommentsEmpty`). The comment branch of the importer
  therefore never inserts anything for fetched items
  (`Importer.ImportPostsNoComments`). The model still states what that
  branch does when an item does carry comments
  (`Importer.ImportStepComments`).
- **The cron option is multiplied by 60.** `fgp_schedule_cron` multiplies
  the option by 60 and then asks for `every_{n}_minutes`. The filter only
  registers `every_1_minutes` … `every_60_minutes`. So the requested
  recurrence is registered only when the option is 1
  (`Schedule.ScheduledName`). With the default of 5 the name is
  `every_300_minutes`, and WordPress refuses to schedule an event with an
  unregistered recurrence. The old event is cleared all the same
  (`Schedule.ScheduledNameInTable`, `Schedule.Cron.ScheduleCron`).
- **An empty keyword matches everything.** Saving the keywords `phone,`
  stores the words `phone` and `""` (`Keywords.TrailingCommaWord`). PHP 8's
  `stripos` finds the empty string in every message, so that
  subcategory is picked whatever the message says
  (`Classifier.EmptyWordAlwaysMatches`,
  `Classifier.TrailingCommaMatchesEverything`).

`fgp_clean_image_url` is also modelled as written. The property proved
for it is that cleaning an absolute URL drops its user, port, query and
fragment, and that cleaning twice is cleaning once. A string with no `:`
that does not start with `//` is a bare path to `parse_url`: no scheme and
no host. Cleaning then gives `"://" + path`, which is not a fixed point
(`Urls.CleanBarePathNotIdempotent`). The port after a host is read the way
`parse_url` reads it, with `strtol`: `"http://h:8a/x.jpg"` has port 8 and
cleans to `"http://h/x.jpg"` (`Urls.PortWithTrailingLetters`). A port of
more than five characters makes the parse fail, so the clean is `"://"`
(`Urls.PortTooLong`). A `:` followed by one to five digits and then `/` or
the end is taken as a port even without a scheme: `"host:80/x.jpg"` cleans
to `"://host/x.jpg"` (`Urls.CleanSchemelessHostPort`), while
`"/p/a:80/x.jpg"` and `":80"` fail and clean to `"://"`
(`Urls.CleanRelativePortPath`, `Urls.CleanColonPort`).

## Model

| member | source | states |
|---|---|---|
| Strings.Split | facebook-group-parser/includes/functions.php:213 | `explode` yields at least one part, and no part contains the separator |
| Strings.JoinSplit | facebook-group-parser/includes/functions.php:213 | joining the parts of `explode` with the separator gives back the input |
| Strings.TruthyByLength | facebook-group-parser/includes/functions.php:58 | a string is truthy in PHP exactly when it has more than one character, or is one character other than `0` |
| Strings.Trim | facebook-group-parser/includes/functions.php:213 | `trim` removes exactly the run of trim characters at each end: the result is the slice between them, and starts and ends with a kept character |
| Strings.StrippedUnique | facebook-group-parser/includes/functions.php:213 | at most one string is the input stripped at both ends, so the contract of `Trim` fixes its result |
| Strings.TrimKeeps | facebook-group-parser/includes/functions.php:213 | a string with no trim character at either end is left as it is |
| Strings.TrimIdempotent | facebook-group-parser/includes/functions.php:213 | trimming twice is trimming once |
| Strings.SplitCount | facebook-group-parser/includes/functions.php:213 | `explode` yields one piece more than there are separators |
| Strings.Contains | facebook-group-parser/includes/functions.php:170 | `strpos(...) !== false` holds exactly when the needle occurs at some position |
| Strings.ContainsCaseless | facebook-group-parser/includes/functions.php:193 | `stripos(...) !== false` holds exactly when the lower-cased needle occurs in the lower-cased message; an empty needle always occurs |
| Keywords.KeywordList | facebook-group-parser/includes/functions.php:213 | one word per comma field, one more than there are commas; no word holds a comma, and each is its field with only the trim characters at its ends removed |
| Keywords.TrailingCommaWord | facebook-group-parser/includes/functions.php:213 | keywords typed as `phone,` give the words `phone` and the empty word |
| Urls.ParseUrl | facebook-group-parser/includes/functions.php:156 | a parse's host and path hold no `?` or `#`, its host is non-empty and holds no `/`, its scheme is a scheme name, and it has a fragment exactly when the URL holds `#` |
| Urls.Clean | facebook-group-parser/includes/functions.php:154-158 | the cleaned URL holds no `?` and no `#`: query and fragment are gone |
| Urls.ParseFormat | facebook-group-parser/includes/functions.php:156 | parsing a formatted absolute URL recovers every component |
| Urls.CleanFormat | facebook-group-parser/includes/functions.php:154-158 | cleaning an absolute URL keeps scheme, host and path and drops user, port, query and fragment |
| Urls.CleanIdempotent | facebook-group-parser/includes/functions.php:154-158 | cleaning an absolute URL twice gives the same as cleaning it once |
| Urls.CleanBarePath | facebook-group-parser/includes/functions.php:157 | a string with no scheme or host cleans to `"://"` followed by the whole string |
| Urls.CleanLeadingColon | facebook-group-parser/includes/functions.php:157 | a string starting with `:/` has no scheme, port or host and cleans to `"://"` followed by the whole string |
| Urls.CleanBarePathNotIdempotent | facebook-group-parser/includes/functions.php:154-158 | for such a string, cleaning the cleaned URL prefixes `"://"` again, so it changes |
| Urls.CleanHostPort | facebook-group-parser/includes/functions.php:156-157 | after a host, an empty port or one `strtol` reads as 0 to 65535 within five characters is dropped by cleaning; any other port makes the parse fail and the clean `"://"` |
| Urls.PortWithTrailingLetters | facebook-group-parser/includes/functions.php:156-157 | `"http://h:8a/x.jpg"` has port 8 and cleans to `"http://h/x.jpg"` |
| Urls.StrtolTrailingLetters | facebook-group-parser/includes/functions.php:156 | a digit followed by a non-digit is read by `strtol` as that digit, and is an accepted port |
| Urls.StrtolDigits | facebook-group-parser/includes/functions.php:156 | `strtol` reads a non-empty string of digits as the number it denotes |
| Urls.PortTooLong | facebook-group-parser/includes/functions.php:156-157 | a six-character port makes the parse fail: `"http://h:000080/x.jpg"` cleans to `"://"` |
| Urls.CleanRelativePortPath | facebook-group-parser/includes/functions.php:156-157 | a relative path whose first `:` is followed by one to five digits and `/` is a port with an empty host, so cleaning gives `"://"` |
| Urls.RelativePortPathExample | facebook-group-parser/includes/functions.php:156-157 | `"/p/a:80/x.jpg"` cleans to `"://"` |
| Urls.CleanSchemelessHostPort | facebook-group-parser/includes/functions.php:156-157 | without a scheme, `host:<digits>` followed by the end or a path is a host and a port, and cleaning gives `"://" + host + path` |
| Urls.CleanColonPort | facebook-group-parser/includes/functions.php:156-157 | `":"` alone, or `":"` with one to five digits and then the end or a path, fails to parse and cleans to `"://"` |
| Urls.IsValidImage | facebook-group-parser/includes/functions.php:161-171 | valid exactly when the HEAD request succeeded with status 200 and the content type contains `image/jpeg` |
| Keywords.LookupPut | facebook-group-parser/includes/functions.php:213 | after storing words under (category, subcategory), that key reads back the words and every other key is unchanged |
| Keywords.PutKeys | facebook-group-parser/includes/functions.php:213 | storing adds the category at the end when new and otherwise keeps the category order |
| Keywords.PutUnique | facebook-group-parser/includes/functions.php:213 | storing keeps categories distinct, and subcategories distinct within each category |
| Keywords.BuildTableAbsent | facebook-group-parser/includes/functions.php:209-216 | a key no row with non-empty keywords names is absent from the saved table |
| Keywords.BuildTableLastWins | facebook-group-parser/includes/functions.php:209-216 | the last row with non-empty keywords for a key decides that key's word list |
| Keywords.BuildTableUnique | facebook-group-parser/includes/functions.php:209-216 | the saved table has distinct keys at both levels |
| Keywords.SaveCategoryKeywords | facebook-group-parser/includes/functions.php:203-219 | nothing is stored without the capability or without a submitted table; otherwise the table built from the rows is stored |
| Keywords.SaveGroup | facebook-group-parser/includes/functions.php:211-215 | the rows of one group, written in order onto the table built from all earlier rows, give the table of earlier rows and these rows together |
| Classifier.DetermineSubcategory | facebook-group-parser/includes/functions.php:188-200 | the result holds at most one subcategory |
| Classifier.FirstMatchSpec | facebook-group-parser/includes/functions.php:190-199 | the first matching rule in table order is returned, and nothing only when no rule matches |
| Classifier.ScanCategoriesIsFirstMatch | facebook-group-parser/includes/functions.php:190-198 | the three nested loops return the first match of the flattened (category, subcategory, word) list |
| Classifier.DetermineIsFirstMatch | facebook-group-parser/includes/functions.php:188-200 | the result is `[]` exactly when no keyword occurs case-insensitively, and otherwise names the first matching rule's subcategory |
| Classifier.EmptyWordAlwaysMatches | facebook-group-parser/includes/functions.php:188-200 | a table holding an empty keyword yields a subcategory for every message |
| Classifier.ScanWordsEmptyWord | facebook-group-parser/includes/functions.php:192-194 | the word loop finds a match in every message once the list holds an empty word |
| Classifier.TrailingCommaMatchesEverything | facebook-group-parser/includes/functions.php:193-194 | keywords saved as `phone,` pick their subcategory for every message |
| Classifier.FirstStoredWins | facebook-group-parser/includes/functions.php:190-196 | when two subcategories share a keyword, the one stored first wins |
| Schedule.AddCronSchedules | facebook-group-parser/includes/functions.php:3-11 | the filter registers `every_i_minutes` with interval i·60 for i in 1..60, adds no other key and keeps every other schedule |
| Schedule.ScheduleNameInjective | facebook-group-parser/includes/functions.php:5 | distinct minute counts give distinct schedule names |
| Schedule.ScheduledName | facebook-group-parser/includes/functions.php:175-178 | the requested name `every_{option·60}_minutes` is one of the registered minute schedules exactly when the option is 1 |
| Schedule.ScheduledNameInTable | facebook-group-parser/includes/functions.php:175-181 | when the base table lacks the name, it is in the filtered table only for option 1, and never for the default |
| Schedule.Cron.NextScheduled | facebook-group-parser/includes/functions.php:177 | `wp_next_scheduled` finds an event exactly when the hook has scheduled events |
| Schedule.HookedNonEmpty | facebook-group-parser/includes/functions.php:177 | the hook has scheduled events exactly when some event carries it |
| Schedule.Cron.ScheduleEvent | facebook-group-parser/includes/functions.php:178 | `wp_schedule_event` appends the event exactly when its recurrence is registered, and reports which |
| Schedule.Cron.ClearScheduledHook | facebook-group-parser/includes/functions.php:180 | `wp_clear_scheduled_hook` removes the hook's events and nothing else |
| Schedule.WithoutKeepsOthers | facebook-group-parser/includes/functions.php:180 | clearing a hook keeps every event of other hooks |
| Schedule.HookedWithout | facebook-group-parser/includes/functions.php:177-182 | after clearing a hook and adding events for it, exactly the added events carry the hook |
| Schedule.Cron.ScheduleCron | facebook-group-parser/includes/functions.php:174-183 | the monitor hook's events are replaced by at most one event, present exactly when the requested recurrence is registered; other events and the schedules are unchanged |
| FeedClient.FacebookApi.constructor | facebook-group-parser/includes/facebook-api.php:6-9 | the client keeps the token and group ID it is given |
| FeedClient.NormaliseItem | facebook-group-parser/includes/facebook-api.php:33-52 | the loop body normalises the item: image list and video slot from the attachments, comments left empty |
| FeedClient.ImageSourcesAppend | facebook-group-parser/includes/facebook-api.php:35-42 | the image list follows attachment order |
| FeedClient.ImageSourcesMembers | facebook-group-parser/includes/facebook-api.php:40-42 | the image list holds exactly the non-empty image sources of the attachments |
| FeedClient.VideoUrlIsLastVideo | facebook-group-parser/includes/facebook-api.php:36-44 | the video slot is the playable URL of the last attachment without an image, or `""` when there is none |
| FeedClient.NormalisedFields | facebook-group-parser/includes/facebook-api.php:34-37 | the ID and message are kept, `image_url` is `picture` or `""`, and comments are empty |
| FeedClient.NormalisedAllItems | facebook-group-parser/includes/facebook-api.php:33-52 | one normalised item per feed item, in feed order |
| FeedClient.FetchOutcomes | facebook-group-parser/includes/facebook-api.php:12-55 | no token, a transport error and an error payload each give their error; otherwise every item of `data` is normalised, and a missing `data` gives no items |
| FeedClient.FetchedCommentsEmpty | facebook-group-parser/includes/facebook-api.php:37-51 | no fetched item carries comments |
| FeedClient.FacebookApi.GetGroupPosts | facebook-group-parser/includes/facebook-api.php:12-55 | the result is the fetch outcome, and the request URL is sent only when a token is set |
| Importer.AbsInt | facebook-group-parser/includes/functions.php:22 | `absint` gives the magnitude of its argument |
| Importer.Title | facebook-group-parser/includes/functions.php:58 | a truthy message of at most 80 characters is its own title; a longer one is cut to its first 80 characters; a falsy message gives "New Post"; no title exceeds 80 characters |
| Importer.Thumbnail | facebook-group-parser/includes/functions.php:83-96 | a thumbnail is set exactly when `image_url` is non-empty, its cleaned URL is a valid image and the sideload succeeds; it is the sideloaded attachment |
| Importer.ImageTag | facebook-group-parser/includes/functions.php:103-107 | an image yields a tag exactly when its cleaned URL is valid and the sideload succeeds; the tag carries that attachment ID and the cleaned URL |
| Importer.UsedImages | facebook-group-parser/includes/functions.php:100-101 | with at most ten images all of them are read; with more, exactly the first ten (`images[..10]`) |
| Importer.CommentsFor | facebook-group-parser/includes/functions.php:133-148 | one approved comment per item comment when importing is on, none otherwise, each attached to the new post with the no-reply address |
| Importer.Site.FindCopy | facebook-group-parser/includes/functions.php:44-52 | the lookup finds a post exactly when a draft or published post carries that Facebook ID |
| Importer.Site.InsertDraft | facebook-group-parser/includes/functions.php:61-68 | `wp_insert_post` appends a draft with the given title and content and returns its ID |
| Importer.Site.SetSourceId | facebook-group-parser/includes/functions.php:69 | the post's `facebook_post_id` meta is set and nothing else changes |
| Importer.Site.SetCategories | facebook-group-parser/includes/functions.php:77 | the post's categories are set and nothing else changes |
| Importer.Site.SetThumbnail | facebook-group-parser/includes/functions.php:89 | the post's thumbnail is set and nothing else changes |
| Importer.Site.UpdateContent | facebook-group-parser/includes/functions.php:109-112 | the post's content is replaced and nothing else changes |
| Importer.Site.InsertComment | facebook-group-parser/includes/functions.php:144 | `wp_insert_comment` appends the comment and changes no post |
| Importer.Site.CreateDraft | facebook-group-parser/includes/functions.php:58-96 | the new draft has the title, initial content, source ID, category and thumbnail the item calls for |
| Importer.Site.AddImage | facebook-group-parser/includes/functions.php:103-118 | a valid, sideloaded image's tag is prepended to the content; otherwise nothing changes |
| Importer.Site.AddImages | facebook-group-parser/includes/functions.php:98-120 | the tags of the first ten usable images are prepended in turn, so the last one ends up on top |
| Importer.Site.AddVideo | facebook-group-parser/includes/functions.php:122-130 | a non-empty video URL puts a video tag on top of the content |
| Importer.Site.AddComments | facebook-group-parser/includes/functions.php:133-149 | the item's comments are appended when importing is on, and no post changes |
| Importer.Site.CreateArticle | facebook-group-parser/includes/functions.php:58-130 | a new item's article is its draft with the images and the video put on top, appended to the posts |
| Importer.Site.ProcessPost | facebook-group-parser/includes/functions.php:42-150 | one iteration of the import loop: a known item changes nothing; a new one adds its draft and comments |
| Importer.Site.ImportAll | facebook-group-parser/includes/functions.php:42-150 | the loop processes the items in feed order |
| Importer.Site.Monitor | facebook-group-parser/includes/functions.php:14-151 | a disabled import, missing configuration, a failed fetch and an empty feed change nothing; otherwise every fetched item is imported, with the limit from `absint`; no run ever stores a comment |
| Importer.ImportPostsExtends | facebook-group-parser/includes/functions.php:42-150 | importing only appends posts and comments |
| Importer.ImportPostsCovers | facebook-group-parser/includes/functions.php:44-69 | after the import every item of the feed has a copy |
| Importer.ImportPostsUnique | facebook-group-parser/includes/functions.php:44-69 | when no Facebook ID had two copies before, none has two after |
| Importer.RepeatedItemImportedOnce | facebook-group-parser/includes/functions.php:44-69 | an item repeated in the feed is imported once |
| Importer.ImportPostsNewDrafts | facebook-group-parser/includes/functions.php:58-69 | every new post is a draft with a title of at most 80 characters, built from one of the items |
| Importer.ImportPostsCovered | facebook-group-parser/includes/functions.php:44-55 | when every item already has a copy, the import changes nothing |
| Importer.ImportPostsRerun | facebook-group-parser/includes/functions.php:44-55 | importing the same feed again changes nothing |
| Importer.ImportPostsNoComments | facebook-group-parser/includes/functions.php:133-149 | items without comments add no comments |
| Importer.ImportStepComments | facebook-group-parser/includes/functions.php:133-145 | with comment import on, a new item's comments are stored under the new post's ID, in order |
| Importer.PrependTagsStep | facebook-group-parser/includes/functions.php:103-111 | prepending one more image tag is one step of the loop |
| Importer.PrependAllIsStack | facebook-group-parser/includes/functions.php:103-111 | prepending the tags in turn puts them above the original content in reverse order |
| Importer.StackFirstLowest | facebook-group-parser/includes/functions.php:100-111 | the first image's tag ends up lowest, just above the message |
| Importer.TagsBound | facebook-group-parser/includes/functions.php:100-107 | no more tags than images |
| Importer.ContentTagsAtMostTen | facebook-group-parser/includes/functions.php:100-101 | a post body holds at most ten image tags |
| Importer.ContentLayout | facebook-group-parser/includes/functions.php:63-130 | the body is the video tag, then the image tags last-first, then the message |

## Left out

- HTTP and JSON: `wp_remote_get` and `json_decode` are not modelled. The decoded response is an input of `FeedClient.FacebookApi.GetGroupPosts`, and a body that is not JSON reads as a payload with neither `error` nor `data`.
- `wp_remote_head`, `wp_remote_retrieve_response_code` and `wp_remote_retrieve_header` are one function from URL to `HeadResponse`, part of `World`.
- `media_sideload_image` is a function from URL to an optional attachment ID. The model does not capture its download, or that a second call for the same URL may fail differently.
- `fgp_log` and every log message are left out; logging has no effect on the modelled state.
- Urls.ParseUrl: a port is kept as the text it was read from (at most five characters, accepted when `strtol` reads a value from 0 to 65535 out of it), not as PHP's integer; cleaning drops the port, so the cleaned URL is the same either way.
- Urls.ParseUrl: PHP replaces control characters in components with `_`, gives `file:///` its own handling, and parses IPv6 hosts; none of these is modelled.
- Urls.CleanIdempotent: proved only for absolute URLs. Bare paths are not idempotent (`Urls.CleanBarePathNotIdempotent`).
- `strtotime` and `date` are left out: a stored comment keeps the raw `created_time` string.
- `esc_attr` is a parameter function in `World`. `__()` and `sprintf` translation are left out, and display strings are the untranslated English text.
- `current_user_can('manage_options')` is a boolean input of `Keywords.SaveCategoryKeywords`, and `$_POST` is an optional list of form rows.
- `get_option` values are read as already-decoded values: `fgp_post_limit` and `fgp_cron_interval` are optional integers. PHP's `intval` parsing of stored strings is not modelled.
- Importer.Site.InsertDraft: `wp_insert_post` always succeeds, and the post ID is the position in the store plus one. Attachments are not stored as posts, so real WordPress IDs are not modelled. Neither is the default category WordPress adds.
- `wp_set_object_terms` stores the subcategory names as strings; term creation and the term hierarchy are left out.
- Classifier.DetermineSubcategory: PHP turns a decimal-integer string key such as `"5"` into the integer key 5. The function then returns `[5]`, and `wp_set_object_terms` reads that as a term ID: it assigns term 5 if it exists and nothing otherwise. The model keeps every subcategory name as a string, so it does not capture this.
- Importer.Title: `mb_substr` counts characters of the Dafny string, standing for code points. Multi-byte encoding is not modelled.
- FeedClient.FacebookApi.GetGroupPosts: the `$limit = 10` default is not modelled, since its only caller always passes a limit.
- `wp_schedule_event` refusing an unregistered recurrence, and `wp_clear_scheduled_hook`, follow WordPress core's behaviour. The cron runner itself and the `init` and `admin_init` hooks are left out.
- Concurrency: two overlapping cron runs could both miss a copy and import an item twice. The model runs one import at a time.
- The admin pages, settings registration, `fgp_render_keyword_settings_table` and the JavaScript are outside the modelled core.
