# Uptown Gallery auction lifecycle, in Dafny

Uptown Gallery is a web marketplace. Artists submit artworks, staff approve them, and buyers bid in auctions that last a fixed number of days. This project models the logic at the centre of the Django application. The Django, allauth, Cloudinary and scheduler plumbing around it is not modelled. The project covers three parts:

- **The auction lifecycle** (`uptowngallery/models.py`), in module `Models`:
  - the database is a `Store` class holding three tables: artworks by id, auctions by id, and bids in insertion order;
  - `ApproveAndStartAuction` is the get-or-create upsert of an artwork's auction;
  - `ArtworkApprovalHandler` is the post-save hook that calls it;
  - `CalculatePrice` gives an artwork's price;
  - `AuctionEndDate` gives an auction's end date from the duration lookup;
  - `CleanBid` is the bid amount check.
- **The view rules** (`uptowngallery/views.py`), in module `Views`, with HTTP, templates and the ORM stripped away:
  - the current price and final price shown for an auction;
  - bid placement with its whole-number check;
  - the allow-list of the profile-field update;
  - the "delete only closed auctions" rule;
  - page clamping on the pending-artworks page.
- **The browser scripts** (`static/js/profile_edit.js` and `static/js/artwork_update.js`):
  - `getCookie`, the element ids of an editable field, and `toggleEdit`/`toggleBackToText` appear word for word in both scripts, so they are modelled once in `ScriptHelpers`;
  - `getCookie` follows JavaScript's `split`, `trim` and `substring`;
  - the toggles are methods on a `Document` whose elements are kept by id;
  - `ProfileEdit` and `ArtworkUpdate` hold each script's own field-name mapping and the request that its `saveEdit` builds.

Units and conventions:

- Money is in integer cents and time in integer seconds.
- Every clock reading is a parameter.
- `decodeURIComponent` is a parameter `decode: string -> string`.

The model follows the code where it differs from the intent the source itself states (the choice labels "3 days", "5 days" and "7 days" at `uptowngallery/models.py:115-119`, the docstrings, the comments in the scripts):

- **Duration lookup.** The form stores `auction_duration` as `"3"`, `"5"` or `"7"`, but the lookup compares it with `"3_days"`, `"5_days"` and `"7_days"`. So every stored choice falls through to the three-day default (`StoredChoicesLastThreeDays`). The lookup also ignores its `auction_start` argument and reads the clock again (`EndDateIgnoresStart`).
- **Hook on creation.** The post-save hook starts an active auction for every newly created artwork, even one that is still pending.
- **Rejection.** Rejecting an artwork leaves its auctions as they are.
- **Reserve price copy.** `Auction.reserve_price` is an integer column, so the copied reserve price loses its cents. The model truncates toward zero, as Python's `int()` does (`WholeUnits`).
- **Several auctions.** `get_or_create` raises `MultipleObjectsReturned` when an artwork already has two or more auctions. The model returns that as an outcome and leaves the table unchanged.
- **No closure sweep.** The periodic sweep that would close expired auctions is written inside a string literal in `uptowngallery/tasks.py`. So no code closes auctions.
- **No bid acceptance rules.** The rules that check a bid against the reserve price and the highest bid belong to `BidForm`, and `uptowngallery/forms.py` does not define it. `PlaceBid` takes the form's verdict as a parameter: `None` means the form did not validate.
- **Imports that do not resolve.** `uptowngallery/views.py:14` imports `CustomSignupForm` and `BidForm`, which `uptowngallery/forms.py:1-9` does not define. `uptowngallery/views.py:16` imports `bid_placed` and `profile_updated`, which `uptowngallery/signals.py:1-21` does not define. As written, importing `uptowngallery/views.py` fails with an `ImportError`, so none of its views can run. `uptowngallery/urls.py:3-15` also imports `ApproveArtworkView` and `RejectArtworkView`, which `uptowngallery/views.py` does not define. The `Views` module models the bodies of the views as if these imports resolved.

## Model

| member | source | states |
|---|---|---|
| `Models.AmountsOn` | uptowngallery/models.py:145 | every amount of a bid on one of the given auctions is listed, and every listed amount belongs to such a bid |
| `Models.MaxAmount` | uptowngallery/models.py:147 | the result is one of the amounts and no amount exceeds it |
| `Models.HighestOr` | uptowngallery/models.py:146-149 | with no amounts the fallback is returned; otherwise an amount that is at least every amount |
| `Models.CalculatePrice` | uptowngallery/models.py:138-150 | the artwork's reserve price when no bid is on any of its auctions (including when it has no auctions); otherwise the amount of some bid on one of its auctions that is at least every such bid |
| `Models.DurationDays` | uptowngallery/models.py:188-195 | the day count is 3, 5 or 7; it is 5 exactly for "5_days", 7 exactly for "7_days", and 3 for everything else |
| `Models.AuctionEndDate` | uptowngallery/models.py:186-197 | the end date is strictly after the clock reading; it is now + 5 days iff the duration is "5_days", now + 7 days iff "7_days", now + 3 days otherwise |
| `Models.StoredChoicesLastThreeDays` | uptowngallery/models.py:115-125 | each stored duration choice "3", "5", "7" ends the auction three days after the clock reading |
| `Models.EndDateIgnoresStart` | uptowngallery/models.py:186-187 | the end date is the same whatever `auction_start` is passed |
| `Models.WholeUnits` | uptowngallery/models.py:245-249 | the integer column keeps a whole number of currency units, truncated toward zero and less than one unit away from the decimal |
| `Models.Store.ApproveAndStartAuction` | uptowngallery/models.py:156-184 | the new auction table is the upsert: a new row under a fresh id when the artwork has none, its one row overwritten when it has one, nothing changed (MultipleObjectsReturned) when it has several; artworks and bids untouched |
| `Models.UpsertLeavesExactlyOne` | uptowngallery/models.py:165-184 | from zero or one auction the artwork ends with exactly one, which is "active", `is_active`, has the copied reserve price and duration and the looked-up end date |
| `Models.UpsertKeepsOtherArtworks` | uptowngallery/models.py:165-175 | no auction of another artwork changes, and every other artwork keeps the same set of auctions |
| `Models.UpsertTwiceLeavesOne` | uptowngallery/models.py:165-184 | a second start for the same artwork creates nothing and still leaves exactly one auction |
| `Models.Store.ArtworkApprovalHandler` | uptowngallery/models.py:257-265 | an auction is started or refreshed iff the artwork was just created or its status is "approved"; "rejected", "pending" and any other status leave every table unchanged |
| `Models.Store.SaveArtwork` | uptowngallery/models.py:257-265 | the artwork row is written; an auction is started or refreshed iff the row is new or its status is "approved"; the auction table and the next free id then become the upsert's, and otherwise neither changes; bids untouched |
| `Models.CleanBid` | uptowngallery/models.py:300-307 | an absent amount fails with "Amount is required.", a negative one with "Bid amount must be a positive number.", and every amount >= 0, zero included, is accepted |
| `Views.AuctionPrice` | uptowngallery/views.py:180-185 | the auction's reserve price when it has no bid; otherwise the amount of one of its bids that is at least every bid on it |
| `Views.PricesAgreeOnSingleAuction` | uptowngallery/models.py:143-148 | for an artwork with one auction that has bids, `calculate_price` equals the price the auction page shows |
| `Views.NoBidPricesAfterStart` | uptowngallery/models.py:170 | without bids, the started auction shows the reserve price cut to whole units while `calculate_price` reports the full reserve |
| `Views.PlaceBid` | uptowngallery/views.py:200-237 | 404 when the artwork is missing or the auction is not one of its auctions; otherwise the form errors are shown iff the form is invalid, the whole-price warning is given iff a valid amount has cents (in both cases the bids are unchanged), and otherwise exactly one bid is appended, with the requested auction, the caller as bidder and `bid_time` = now; auctions and artworks untouched |
| `Views.UpdateProfile` | uptowngallery/views.py:266-300 | only "name" and "shipping_address" are accepted; that attribute becomes `value`, the other fields keep theirs, and the answer echoes `field` and `new_value` with status 200; any other field name gets status 400 with `{"status":"error","message":"Invalid field"}` and the profile is unchanged |
| `Views.ClosedAuctionFinalPrices` | uptowngallery/views.py:325-336 | exactly the caller's closed auctions get a final price, and each is that auction's highest bid or its reserve price |
| `Views.BidsNotOn` | uptowngallery/models.py:284-286 | the cascade keeps every bid on another auction, with its multiplicity (duplicate rows included), and drops every bid on the deleted auction |
| `Views.BidsNotOnAppend` | uptowngallery/models.py:284-286 | the cascade works row by row and keeps the surviving rows in their order: filtering `a + b` gives the filtered `a` followed by the filtered `b` |
| `Views.BidsNotOnSingle` | uptowngallery/models.py:284-286 | one row survives exactly when it is on another auction |
| `Views.DeleteClosedAuction` | uptowngallery/views.py:347-369 | an auction is removed, with its bids, iff the id is given, the auction is on one of the caller's artworks and its status is "closed"; in every other case no table changes |
| `Views.NumPages` | uptowngallery/views.py:139 | at least one page, and just enough pages of ten for the artworks |
| `Views.PendingPage` | uptowngallery/views.py:139-146 | the page shown is always a real page; a missing or non-integer page number gives page 1, an in-range number gives that page, and one below 1 or past the end gives the last page |
| `ScriptHelpers.Split` | static/js/profile_edit.js:80 | at least one part, and no part contains the separator |
| `ScriptHelpers.JoinSplit` | static/js/profile_edit.js:80 | joining the parts with the separator gives back the cookie string |
| `ScriptHelpers.SplitAppend` | static/js/profile_edit.js:80 | the parts of `a;b` are the parts of `a` followed by the parts of `b` |
| `ScriptHelpers.TrimStartDropsLeadingSpace` | static/js/profile_edit.js:82 | trimming the front drops exactly the leading white space |
| `ScriptHelpers.TrimEndDropsTrailingSpace` | static/js/profile_edit.js:82 | trimming the end drops exactly the trailing white space |
| `ScriptHelpers.TrimIsInfix` | static/js/profile_edit.js:82 | a trimmed entry is the part of the string between its leading and trailing white space and starts and ends with non-space |
| `ScriptHelpers.MatchesIffStartsWith` | static/js/profile_edit.js:83 | the `substring` comparison holds exactly when the entry starts with `name=` |
| `ScriptHelpers.LongerNameDoesNotMatch` | static/js/profile_edit.js:83 | an entry whose name only starts with `name` (as `csrftokenX=` does) never matches |
| `ScriptHelpers.FirstMatch` | static/js/profile_edit.js:81-87 | the index found is a matching entry with no matching entry before it; no index means no entry matches |
| `ScriptHelpers.CookieValue` | static/js/profile_edit.js:77-90 | `null` for an empty cookie string or when no entry matches; otherwise the decoded text after `name=` in the first matching entry |
| `ScriptHelpers.LaterEntriesIgnored` | static/js/profile_edit.js:81-86 | once an entry for the name is found, entries after it (including ones with the same name) do not change the result |
| `ScriptHelpers.EarlierOtherEntriesSkipped` | static/js/profile_edit.js:81-86 | entries in front that do not match leave the result as if they were absent |
| `ScriptHelpers.GetCookie` | static/js/profile_edit.js:77-90 | the loop with its early `break` returns exactly `CookieValue` |
| `ScriptHelpers.Capitalize` | static/js/profile_edit.js:9-10 | same length, first character upper-cased, the rest unchanged |
| `ScriptHelpers.EditIconId` | static/js/profile_edit.js:9 | "edit" + the capitalised field name + "Icon" |
| `ScriptHelpers.SaveIconId` | static/js/profile_edit.js:10 | "save" + the capitalised field name + "Icon" |
| `ScriptHelpers.ElementIdsDistinct` | static/js/profile_edit.js:7-10 | the text, input, edit-icon and save-icon ids of a field are pairwise different |
| `ScriptHelpers.Document.ToggleEdit` | static/js/profile_edit.js:6-16 | the page afterwards is `EditMode` of the page before |
| `ScriptHelpers.Document.ToggleBackToText` | static/js/profile_edit.js:98-107 | the page afterwards is `TextMode` of the page before |
| `ScriptHelpers.ToggleEditShowsEditor` | static/js/profile_edit.js:12-15 | after `toggleEdit` the input and save icon show and the text and edit icon are hidden; no text or input value changes |
| `ScriptHelpers.ToggleRoundTrip` | static/js/profile_edit.js:102-106 | `toggleEdit` then `toggleBackToText` shows the text and edit icon, hides the input and save icon, sets the text to `newValue`, keeps the typed value and changes no other element |
| `ScriptHelpers.ToggleRoundTripRestores` | static/js/profile_edit.js:98-106 | starting from the text view, the round trip gives back the same page except for the text shown |
| `ProfileEdit.BackendFieldName` | static/js/profile_edit.js:23-29 | "shippingAddress" becomes "shipping_address"; every other name, "name" included, is returned unchanged |
| `ProfileEdit.SaveEditRequest` | static/js/profile_edit.js:35-44 | the request carries the backend field name, the input's current value and the `csrftoken` cookie, unchanged |
| `ProfileEdit.EditableFieldsAreAllowed` | static/js/profile_edit.js:23-29 | the profile page's two fields reach the view under names its allow-list accepts, and only those names (and the backend spelling itself) are accepted |
| `ArtworkUpdate.BackendFieldName` | static/js/artwork_update.js:13-19 | every name, "title" and "description" included, is returned unchanged (the second definition at lines 57-63 is the same) |
| `ArtworkUpdate.SaveEdit` | static/js/artwork_update.js:21-55 | the request carries the given `artwork_id`, the field name, the input's current value and the `csrftoken` cookie; on a "success" answer the field is switched back to text showing that value, otherwise the page is unchanged |

`static/js/artwork_update.js` holds the same `toggleEdit` (lines 1-11), `getCookie` (lines 65-78) and `toggleBackToText` (lines 80-89) as the profile script. The `ScriptHelpers` rows above cover both copies.

## Left out

- The closure sweep `check_and_close_auctions` in `uptowngallery/tasks.py`: its body is a string literal, so there is no code to model. Its scheduling in `uptowngallery/apps.py` is scheduler I/O.
- Bid acceptance against the reserve price and the current highest bid: `BidForm` is not defined in `uptowngallery/forms.py`. `PlaceBid` takes the form's verdict as a parameter.
- Notifications: `bid_placed` and `profile_updated` are sent at `uptowngallery/views.py:223-225` and `:282-287`, but `uptowngallery/signals.py` does not define them (see "Imports that do not resolve" above). Nothing would receive them, so they have no effect to model.
- `uptowngallery/signals.py` (profile creation on user save), `uptowngallery/adapters.py` and `uptowngallery/admin.py`: these are allauth and admin wiring.
- The `Views` module models the view bodies as if their imports resolved. As written, `uptowngallery/views.py` cannot be imported, so no modelled view can answer a request.
- The messages framework, redirects, templates, `LoginRequiredMixin`, URL routing and the other views (landing page, listings, search, artwork creation, signup, profile info, about, error handlers): these are framework glue with no rule of their own. The outcome datatypes name the message each branch shows.
- `ActivityDashboardView.get` beyond the closed-auction prices: the bidding, selling and active lists are plain queries. The final prices are returned as a map from auction id instead of being set as attributes on in-memory rows.
- `AuctionDetailView.get` beyond the price: the 404 lookups and the template choice are not modelled there. The same lookups are modelled in `PlaceBid`.
- Query order: Django returns the closed auctions in no defined order, and the model walks them as a set.
- Parsing request parameters: the page number arrives as `Option<int>` (`None` when Python's `int()` would fail) and the dashboard's `auction_id` as `Option<nat>`. A non-numeric `auction_id`, which makes Django raise a `ValueError`, is not modelled.
- Concurrency: the race around `get_or_create` and bid placement is not modelled. Each operation runs alone.
- Decimal money: amounts are integer cents, and the ten-digit limit of the decimal columns is not enforced.
- Nullable columns that the modelled code never leaves null: `Auction.status` is a plain string, and the foreign key `Auction.artwork` is a plain id.
- `decodeURIComponent` is a parameter, so its `URIError` on malformed input is not modelled.
- JavaScript strings are sequences of code points, not UTF-16 code units. `toUpperCase` changes only the ASCII letters a-z.
- JavaScript object lookups can reach inherited `Object.prototype` properties such as "constructor". `BackendFieldName` treats those keys like any other unmapped name.
- `saveEdit`'s `fetch` call, the server's answer (only its "success" verdict is a parameter) and `window.location.reload` in the profile script: these are network and browser I/O.
- `ArtworkUpdate.SaveEdit`: its "success" branch cannot be reached against this server. `static/js/artwork_update.js:33` posts to `/pending_artworks/`. `uptowngallery/urls.py:21-25` routes that path to `PendingArtworksView`, which defines only `get` (`uptowngallery/views.py:129-149`). The server answers 405, so `response.ok` is false and the page is never switched back to text. The model keeps the script's own behaviour for a "success" answer.
- A missing DOM element: the toggles require the field's four elements to exist. The script would throw a `TypeError` part-way through otherwise.
