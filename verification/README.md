# MindScribe Pro — a Dafny model of the book editor's core

MindScribe Pro is a web application for writing books: a book has chapters, a chapter has
sections, and the canvas editor shows a chapter's sections as typed blocks (text, heading,
image, quote, list, divider). This project models, in Dafny, the logic of that core with the
browser, the network and the clock abstracted away:

- the block and entity records (`block_types.dfy`, `types.dfy`);
- the client stores of books, chapters, sections, templates and settings, with cascade
  delete, per-parent queries sorted by `order`, template search and the settings
  merge/reset (`store.dfy`);
- the chapter canvas: sections loaded into blocks and the block list written back as
  sections, with the round trips and the information it loses (`canva_chapter_canvas.dfy`);
- block list editing (append, per-id update, delete-and-renumber, drag reorder) and the
  content edits of one block (`canva_chapter_editor.dfy`, `block_editor.dfy`);
- the HTML preview renderer with its four markdown substitutions, and the text helpers
  `truncateText`, `calculateReadingTime` and `exportAsMarkdown` (`export.dfy`, `utils.dfy`);
- the small editor state machines: page navigation and zoom, the preview's zoom and
  export flag, the section heading editor, the quick book generator, the notification
  list, A/B test assignment and statistics, and the templates page
  (`canva_page_editor.dfy`, `book_preview.dfy`, `chapter_canvas.dfy`,
  `quick_book_generator.dfy`, `notification_system.dfy`, `ab_testing.dfy`,
  `templates_page.dfy`);
- the server side: the book generation route (fenced-JSON extraction, validation, the
  eight-chapter fallback, the chapter mapping), the mock outline and rewrite routes, the
  in-memory books API, the admin users endpoint, credential sign-in with its token and
  session callbacks, and the route guard (`generate_book.dfy`, `generate_outline.dfy`,
  `rewrite.dfy`, `books_route.dfy`, `admin_users.dfy`, `auth.dfy`, `middleware.dfy`).

Shared helpers live in `wrappers.dfy` (`Option`), `seqs.dfy` (filtering, repeats),
`text.dfy` (JavaScript string operations: trim, lowercase, `indexOf`, `substring`,
number formatting, truthiness) and `sorting.dfy` (the stable sort by `order` that
`Array.prototype.sort` performs with a subtracting comparator).

State the source changes in place is modelled by classes whose methods carry `modifies`
clauses and state the new fields in terms of the old ones; the pure parts are functions,
and the properties the application relies on are lemmas about those functions. Fresh ids,
clock readings, random draws, replies from the AI and image services, and the bcrypt
comparison are parameters. `JSON.parse`/`JSON.stringify` are an abstract codec pair
(`BlockTypes.Codec`) whose round-trip law (`Lawful`) is a hypothesis of the lemmas that
need it.

## Model

| member | source | states |
|---|---|---|
| Store.PatchBook | lib/store.ts:52 | `{ ...book, ...updates }` with an update that carries no id: the patched book keeps its id |
| Store.PatchChapter | lib/store.ts:79 | the chapter spread-merge keeps the chapter's id |
| Store.PatchSection | lib/store.ts:94 | the section spread-merge keeps the section's id |
| Store.UpdateBooks | lib/store.ts:50-53 | `updateBook` on the list: same length, every book with the id patched, every other book unchanged |
| Store.UpdateChapters | lib/store.ts:77-81 | `updateChapter` on the list: same length, every chapter with the id patched, the others unchanged |
| Store.UpdateSections | lib/store.ts:92-96 | `updateSection` on the list: same length, every section with the id patched, the others unchanged |
| Store.ChaptersOf | lib/store.ts:102-106 | `getChaptersByBookId`: exactly the book's chapters, ascending by `order`, a permutation of the filtered list |
| Store.SectionsOf | lib/store.ts:108-112 | `getSectionsByChapterId`: exactly the chapter's sections, ascending by `order`, a permutation of the filtered list |
| Store.RemoveSectionExact | lib/store.ts:98-100 | `deleteSection` removes exactly the sections with that id; an unknown id changes nothing |
| Store.RemoveBookExact | lib/store.ts:59-60 | `deleteBook` removes exactly the books with that id; an unknown id changes nothing |
| Store.DeleteBookCascade | lib/store.ts:59-67 | deleting a book drops exactly its chapters and exactly the sections of those chapters |
| Store.DeleteChapterCascade | lib/store.ts:83-86 | deleting a chapter drops exactly its sections |
| Store.BookFromDraft | lib/store.ts:39-45 | `createBook` keeps the draft's fields and adds the fresh id and the clock reading `now` as both timestamps |
| Store.BooksStore.constructor | lib/store.ts:30-33 | the books store starts with no books, chapters, sections or current book |
| Store.BooksStore.AddBook | lib/store.ts:35-37 | `addBook` appends the book and changes nothing else |
| Store.BooksStore.CreateBook | lib/store.ts:39-48 | `createBook` appends and returns the new book built from the draft |
| Store.BooksStore.UpdateBook | lib/store.ts:50-57 | `updateBook` patches the listed books and, when it has that id, the current book |
| Store.BooksStore.DeleteBook | lib/store.ts:59-69 | `deleteBook` removes the book, its chapters and their sections, and clears the current book when it is that book |
| Store.BooksStore.SetCurrentBook | lib/store.ts:71 | `setCurrentBook` sets the current book and nothing else |
| Store.BooksStore.AddChapter | lib/store.ts:73-75 | `addChapter` appends the chapter and changes nothing else |
| Store.BooksStore.UpdateChapter | lib/store.ts:77-81 | `updateChapter` patches the chapters with that id and changes nothing else |
| Store.BooksStore.DeleteChapter | lib/store.ts:83-86 | `deleteChapter` removes the chapter and its sections and leaves books alone |
| Store.BooksStore.AddSection | lib/store.ts:88-90 | `addSection` appends the section and changes nothing else |
| Store.BooksStore.UpdateSection | lib/store.ts:92-96 | `updateSection` patches the sections with that id and changes nothing else |
| Store.BooksStore.DeleteSection | lib/store.ts:98-100 | `deleteSection` removes the section and changes nothing else |
| Store.MergeSettingsOnlyGiven | lib/store.ts:140 | `updateSettings`: each of the eight keys takes the given value when the update names it and keeps its old value otherwise; an empty update changes nothing |
| Store.ResetSettingsEffect | lib/store.ts:126-142 | `resetSettings` merges the defaults in: the six default keys return to "fr", "neutral", "B2", "6x9" and empty API keys, while the DeepSeek and Gemini keys keep their values |
| Store.SettingsStore.constructor | lib/store.ts:126-138 | the settings start at the defaults |
| Store.SettingsStore.UpdateSettings | lib/store.ts:140 | the new settings are the old ones merged with the update |
| Store.SettingsStore.ResetSettings | lib/store.ts:142 | the new settings are the old ones overwritten by the defaults |
| Store.SearchTemplates | lib/store.ts:159-169 | an empty query returns every template; otherwise exactly the templates whose name, description, category or a tag contains the query ignoring case, in their original order |
| Store.ChapterFromDraft | lib/store.ts:186-190 | `createChapter` keeps the draft's fields and adds the fresh id |
| Store.ChaptersStore.constructor | lib/store.ts:184 | the chapters store starts empty |
| Store.ChaptersStore.CreateChapter | lib/store.ts:186-193 | `createChapter` appends and returns the new chapter |
| Store.ChaptersStore.UpdateChapter | lib/store.ts:195-199 | `updateChapter` patches the chapters with that id |
| Store.ChaptersStore.DeleteChapter | lib/store.ts:201-203 | `deleteChapter` removes that chapter and, unlike the books store, leaves sections alone |
| Store.SectionFromDraft | lib/store.ts:227-231 | `createSection` keeps the draft's fields and adds the fresh id |
| Store.SectionsStore.constructor | lib/store.ts:225 | the sections store starts empty |
| Store.SectionsStore.CreateSection | lib/store.ts:227-234 | `createSection` appends and returns the new section |
| Store.SectionsStore.UpdateSection | lib/store.ts:236-240 | `updateSection` patches the sections with that id |
| Store.SectionsStore.DeleteSection | lib/store.ts:242-244 | `deleteSection` removes the sections with that id |
| Types.CategoryNameInjective | lib/types.ts:48 | distinct template categories have distinct names, so comparing names compares categories |
| BlockEditor.ContentUpdateOnlyContent | components/BlockEditor.tsx:51-53 | a content update replaces the block's content and leaves id, type, order and geometry alone |
| BlockEditor.ContentUpdateInList | components/BlockEditor.tsx:51-53 | applied to the list through `updateBlock`, a content update changes only the block with that id, and only its content |
| BlockEditor.SetText | components/BlockEditor.tsx:159 | typing into a text, heading or quote block sets the text and keeps the kind, style, level and author |
| BlockEditor.SetSrc | components/BlockEditor.tsx:228 | the image URL field sets `src` and changes nothing else |
| BlockEditor.SetAlt | components/BlockEditor.tsx:233 | the alt field sets `alt` and changes nothing else |
| BlockEditor.SetCaption | components/BlockEditor.tsx:238 | the caption field sets the caption and changes nothing else |
| BlockEditor.SetAuthor | components/BlockEditor.tsx:275 | the quote author field sets the author and changes nothing else |
| BlockEditor.SetOrdered | components/BlockEditor.tsx:307-314 | "Bulleted"/"Numbered" set the ordered flag and keep the items and style |
| BlockEditor.EditItem | components/BlockEditor.tsx:324-326 | editing item `index` replaces that item only; length, other items and flags are kept |
| BlockEditor.AddItem | components/BlockEditor.tsx:334-337 | "Add Item" appends exactly one item, "New item", after the existing ones |
| BlockEditor.ToggleBold | components/BlockEditor.tsx:380-388 | the bold button changes the font weight, and only the font weight |
| BlockEditor.ToggleItalic | components/BlockEditor.tsx:395-403 | the italic button changes the font style, and only the font style |
| BlockEditor.ToggleBoldTwice | components/BlockEditor.tsx:385 | pressing bold twice restores the block's content |
| BlockEditor.ToggleItalicTwice | components/BlockEditor.tsx:400 | pressing italic twice restores the block's content |
| BlockEditor.SetAlign | components/BlockEditor.tsx:413-423 | an alignment button sets `textAlign` and keeps the text and the rest of the style |
| BlockEditor.SetFontSize | components/BlockEditor.tsx:436-447 | the slider, within 12 to 32, sets the font size and keeps the rest |
| BlockEditor.SetColor | components/BlockEditor.tsx:458-468 | the colour picker sets the colour of any block kind and keeps its kind, text and items |
| BlockEditor.TextAndStyleCommute | components/BlockEditor.tsx:385-400 | editing the text and toggling bold or italic commute: they touch disjoint fields |
| TemplatesPage.FilteredTemplates | app/templates/page.tsx:41-50 | the page's list holds exactly the templates whose name, description or a tag contains the query (ignoring case) and whose category is the selected one, in store order; with no query and no category it is the whole list |
| TemplatesPage.SelectCategory | app/templates/page.tsx:47 | choosing a category with an empty query shows exactly the templates of that category |
| TemplatesPage.CategoryOnlyMatch | app/templates/page.tsx:42-45 | the page search does not look at the category, while the store's `searchTemplates` does: a template found by its category name alone is found by the store and not by the page |
| TemplatesPage.CategoriesOf | app/templates/page.tsx:53 | `templates.map(t => t.category)`: one category per template, position by position |
| TemplatesPage.Categories | app/templates/page.tsx:53 | the category buttons: no duplicates, exactly the categories some template has, in order of first appearance |
| TemplatesPage.TemplateBook | app/templates/page.tsx:57-66 | "Use template" makes a book titled "My " + the template's name, with empty subtitle and author, English, general audience, created and updated now |
| TemplatesPage.UseTemplate | app/templates/page.tsx:55-69 | using a template appends that book to the books store and leaves chapters, sections and the current book alone |
| GenerateOutline.SliceEnd | app/api/ai/generate-outline/route.ts:18 | the end index `slice(0, n)` uses: `n` capped at the length, a negative `n` counted from the end, never below 0 |
| GenerateOutline.Outcome | app/api/ai/generate-outline/route.ts:6-31 | an undecodable body gives 500; otherwise the title is the subject or the mock's title, the chapters are the first `numChapters` (default 8) mock chapters, and the metadata echoes the audience, the clock and "mock-ai-v1" |
| GenerateOutline.MockOutlines | lib/mocks.ts:226-257 | there are two canned outlines to pick from |
| GenerateOutline.ChaptersArePrefix | app/api/ai/generate-outline/route.ts:18 | the returned chapters are always a prefix of the picked outline's chapters, never longer |
| GenerateOutline.MockOutlinesHaveTenChapters | lib/mocks.ts:226-257 | each canned outline has ten chapters, so no request gets more than ten |
| GenerateOutline.DefaultEightChapters | app/api/ai/generate-outline/route.ts:6-18 | a request without `numChapters` gets the first eight chapters |
| GenerateOutline.EmptySubjectKeepsMockTitle | app/api/ai/generate-outline/route.ts:17 | a missing or empty subject keeps the canned title |
| Rewrite.BaseText | lib/mocks.ts:260-264 | the canned text for "friendly" and "professional", and the neutral one for every other tone |
| Rewrite.Post | app/api/ai/rewrite/route.ts:6-51 | an undecodable body gives 500, a missing or empty text 400 "Text is required"; otherwise the reply echoes text, tone (default "neutral") and audience (default "general"), the rewrite is the tone's canned text plus the length-dependent sentence, and the metadata lengths are those of the two texts |
| Rewrite.OpensWithBaseText | app/api/ai/rewrite/route.ts:28-33 | every rewrite starts with the canned text of its tone; unknown and missing tones start with the neutral text |
| Rewrite.OnlyLengthClassMatters | app/api/ai/rewrite/route.ts:31-33 | two texts on the same side of 100 characters get the same rewrite |
| BooksRoute.NewBook | app/api/books/route.ts:19-28 | the stored book has the fresh id and the clock reading, the title (default "Untitled Book"), language (default "fr") and audience (default "general") from the body, subtitle and author copied, no cover |
| BooksRoute.OnlyFiveFieldsCopied | app/api/books/route.ts:19-28 | the stored book depends on the body only through title, subtitle, author, language and audience |
| BooksRoute.BooksApi.constructor | app/api/books/route.ts:5 | the list starts empty |
| BooksRoute.BooksApi.Get | app/api/books/route.ts:7-9 | `GET` returns the stored books as they are |
| BooksRoute.BooksApi.Post | app/api/books/route.ts:15-35 | `POST` appends the new book and answers 201 with it; an undecodable body answers 500 and stores nothing |
| Auth.UserFile.constructor | lib/user-store.ts:16-24 | a missing users file reads as the empty list |
| Auth.UserFile.EnsureDefaultUsers | lib/auth.ts:58-67 | an empty file gets the two demo accounts; a non-empty one is left as it is |
| Auth.DefaultUsers | lib/auth.ts:61-64 | the demo accounts: an active admin and an active user with different ids |
| Auth.FindByEmail | lib/auth.ts:21 | the first user whose email equals the given one ignoring case, or none when no email matches |
| Auth.AuthUserOf | lib/auth.ts:30-35 | the signed-in user carries the stored id, name, email and role |
| Auth.Authorize | lib/auth.ts:18-37 | sign-in succeeds exactly when both fields are present and non-empty, the first user with that email is active, and the password passes (bcrypt compare for "$2" hashes, equality otherwise); it then returns that user |
| Auth.AuthorizeIgnoresCase | lib/auth.ts:21 | two spellings of an email that differ only in case sign in alike |
| Auth.FindByEmailIgnoresCase | lib/auth.ts:21 | the user lookup depends on the email only through its lower-case form |
| Auth.FirstMatchDecides | lib/auth.ts:21-22 | when the first account with an email is inactive, sign-in fails even if a later account with that email would pass |
| Auth.PlainPasswordExact | lib/auth.ts:24-29 | a successful sign-in against a stored value that is not a bcrypt hash gave exactly that value |
| Auth.DemoAdminSignsIn | lib/auth.ts:19-62 | the seeded admin signs in with "admin@demo.com" / "admin" and gets the admin role |
| Auth.Jwt | lib/auth.ts:41-47 | at sign-in the token takes the user's id and role ("user" when empty); later calls keep the token |
| Auth.SessionOf | lib/auth.ts:48-54 | a session with a user gets the token's role and id and keeps name and email |
| Auth.SignInReachesSession | lib/auth.ts:41-54 | after sign-in, every session shows the stored user's id and role |
| AdminUsers.FindById | app/api/admin/users/route.ts:14 | the index of the first user with the body's id, or none when none has it |
| AdminUsers.Toggled | app/api/admin/users/route.ts:16-17 | "toggleActive" flips `active`, "toggleRole" swaps admin and user, any other op changes nothing; id, name, email and password are kept |
| AdminUsers.ToggleTwice | app/api/admin/users/route.ts:16-17 | the same toggle applied twice restores the user |
| AdminUsers.ToggleRoleNormalises | app/api/admin/users/route.ts:17 | a role toggle always yields "admin" or "user"; an unexpected role becomes "admin" |
| AdminUsers.Applied | app/api/admin/users/route.ts:14-18 | the written list: the found user toggled and every other user unchanged |
| AdminUsers.AppliedKeepsIds | app/api/admin/users/route.ts:14-18 | a `PUT` moves no id, so any id is found where it was before |
| AdminUsers.PutTwiceRestores | app/api/admin/users/route.ts:11-20 | sending the same `PUT` twice leaves the users file as it was |
| AdminUsers.Put | app/api/admin/users/route.ts:11-20 | a body that fails to decode throws uncaught, so the answer is a 500 and nothing is written; an unknown id answers 404 "Not found" and writes nothing; otherwise the toggled list is written and the answer is ok |
| AdminUsers.Get | app/api/admin/users/route.ts:5-9 | `GET` seeds an empty file with the demo accounts, then lists the file |
| Middleware.Guard | middleware.ts:5-14 | a path starting with "/admin" sends every token without the "admin" role to "/"; everything else goes through |
| Middleware.Handle | middleware.ts:4-33 | paths outside the matcher pass; a guarded path without a token, other than "/login", goes to sign-in; the rest pass through the admin check |
| Middleware.OnlySignInIsPublic | middleware.ts:20-26 | without a token, "/login" is the only guarded path that is reached |
| Middleware.SignupNeedsToken | middleware.ts:23-25 | "/signup" is not public: without a token it goes to sign-in |
| Middleware.AdminPrefixGuarded | middleware.ts:7-11 | every path with the "/admin" prefix sends a signed-in non-admin home and lets an admin through |
| Middleware.AdministratorIsAdminPath | middleware.ts:7 | "/administrator" has the "/admin" prefix, so it is guarded as an admin page |
| Middleware.ExcludedNotGuarded | middleware.ts:32 | paths under "api", "_next/static", "_next/image", "favicon.ico", "fonts" or "images" are never guarded |
| Middleware.FaviconDotMatchesAnyCharacter | middleware.ts:32 | the unescaped '.' in the matcher also exempts "/favicon-ico" |
| CanvaChapterCanvas.TextBlock | components/CanvaChapterCanvas.tsx:77-96 | the fallback block: a well-formed text block at the section's position with the default geometry and style |
| CanvaChapterCanvas.BodyToBlock | components/CanvaChapterCanvas.tsx:54-99 | a section body loads as a block with the section's id and position; a body that parses as an object with truthy `type` and `content` keeps that type and content as they are, with a missing or zero x, y, width or height becoming 0, 0, 100 or 60; any other body (an empty body reads as "{}") loads as a text block holding the body, or "Empty section..." when it is empty |
| CanvaChapterCanvas.NoGeometryDefaults | components/CanvaChapterCanvas.tsx:60-71 | block data stored with a type and content but no geometry loads at 0, 0 with size 100 by 60 |
| CanvaChapterCanvas.GeometryKept | components/CanvaChapterCanvas.tsx:60-71 | non-zero stored coordinates and sizes are kept as stored |
| CanvaChapterCanvas.LoadBlocks | components/CanvaChapterCanvas.tsx:54-100 | the loaded list has one block per section, block `i` converted from section `i` at position `i` |
| CanvaChapterCanvas.LoadChapter | components/CanvaChapterCanvas.tsx:17-103 | a chapter without sections shows one placeholder block and gets one placeholder section (order 0); otherwise its sections, sorted by order, are converted and nothing is written |
| CanvaChapterCanvas.PlaceholderOnlySection | components/CanvaChapterCanvas.tsx:46-51 | after the placeholder is created, the chapter holds exactly that section |
| CanvaChapterCanvas.PlaceholderReload | components/CanvaChapterCanvas.tsx:46-96 | the placeholder section loads back as the placeholder text block under the section's id |
| CanvaChapterCanvas.FindSection | components/CanvaChapterCanvas.tsx:114 | `sections.find`: a section is found exactly when some section has the id, and it has that id |
| CanvaChapterCanvas.NewSection | components/CanvaChapterCanvas.tsx:141-146 | the section created for a block without one: the new id, this chapter, order = the block's position |
| CanvaChapterCanvas.Patched | components/CanvaChapterCanvas.tsx:132-138 | updating a section through the save keeps its id and its chapter |
| CanvaChapterCanvas.SaveBlocks | components/CanvaChapterCanvas.tsx:105-156 | `handleBlocksChange` leaves the sections store in the state `SavedSections` describes: each block's section updated or created in block order, then the chapter's sections without a block deleted |
| CanvaChapterCanvas.UpsertBlocks | components/CanvaChapterCanvas.tsx:113-148 | the first loop: one update or one creation per block, in block order |
| CanvaChapterCanvas.PruneSections | components/CanvaChapterCanvas.tsx:151-155 | the second loop deletes every section id of the chapter snapshot that no block carries |
| CanvaChapterCanvas.NonTextRoundTrip | components/CanvaChapterCanvas.tsx:60-129 | a non-text block with non-zero size is saved as JSON and reloads with its type, position, size and content |
| CanvaChapterCanvas.ZeroSizeReload | components/CanvaChapterCanvas.tsx:68-69 | a zero width reloads as 100 and a zero height as 60 |
| CanvaChapterCanvas.TextReload | components/CanvaChapterCanvas.tsx:75-119 | a text block keeps only its text: style and geometry come back as the defaults |
| CanvaChapterCanvas.PlainTextReload | components/CanvaChapterCanvas.tsx:60-96 | text that does not start like a JSON object reloads as itself |
| CanvaChapterCanvas.EmptyTextReload | components/CanvaChapterCanvas.tsx:60-86 | an emptied text block reloads as "Empty section..." |
| CanvaChapterCanvas.JsonTextMisread | components/CanvaChapterCanvas.tsx:60-119 | a text block whose text is the JSON of a block payload reloads as that other block |
| CanvaChapterCanvas.CanonicalRoundTrip | components/CanvaChapterCanvas.tsx:54-147 | a block that survives the encoding reloads equal to itself up to id and position |
| CanvaChapterCanvas.SavedDistinct | components/CanvaChapterCanvas.tsx:105-156 | a save with fresh new ids leaves no two sections equal |
| CanvaChapterCanvas.SavedMember | components/CanvaChapterCanvas.tsx:105-156 | after a save, the chapter's sections are exactly the expected ones: one per block, with that block's body, heading and position |
| CanvaChapterCanvas.SaveThenChapterSections | components/CanvaChapterCanvas.tsx:105-156 | after a save, the chapter's sections in load order are the expected sections in block order |
| CanvaChapterCanvas.SaveThenLoad | components/CanvaChapterCanvas.tsx:17-156 | saving a block list and loading the chapter gives one block per saved block, each the block reloaded from its body at its position, under its section's id |
| CanvaChapterCanvas.SaveThenLoadCanonical | components/CanvaChapterCanvas.tsx:17-156 | for canonical blocks, save then load is the identity up to new ids and renumbering, and exactly the identity when every block already has its section at its position |
| CanvaChapterEditor.Unordered | components/CanvaChapterEditor.tsx:78-81 | the comparison view that ignores order fields: one entry per block, the block with order cleared |
| CanvaChapterEditor.UnorderedAppend | components/CanvaChapterEditor.tsx:78-81 | clearing order fields distributes over concatenation |
| CanvaChapterEditor.Renumber | components/CanvaChapterEditor.tsx:78-81 | `map((block, index) => ({ ...block, order: index }))`: same blocks, and every order equals its position |
| CanvaChapterEditor.IndexOfId | components/CanvaChapterEditor.tsx:70-71 | `findIndex`: the first position with the id, and -1 exactly when no block has it |
| CanvaChapterEditor.Moved | components/CanvaChapterEditor.tsx:73-75 | the two splices keep the length |
| CanvaChapterEditor.MovedProperties | components/CanvaChapterEditor.tsx:73-75 | the two splices permute the list: the moved element lands at the target, the others keep their relative order, and a move onto itself changes nothing |
| CanvaChapterEditor.UnorderedMoved | components/CanvaChapterEditor.tsx:73-81 | moving and clearing order fields commute |
| CanvaChapterEditor.DragEnd | components/CanvaChapterEditor.tsx:63-85 | a drag without a target or onto itself hands nothing on; otherwise the dragged block is spliced out and in at the target's index and the list is renumbered |
| CanvaChapterEditor.DragPermutes | components/CanvaChapterEditor.tsx:63-85 | after a drag the list is a permutation of the old one up to order fields, the dragged block sits at the target position, the others keep their relative order, and every order equals its position |
| CanvaChapterEditor.DefaultContent | components/CanvaChapterEditor.tsx:98-173 | the starter content of each block kind is content of that kind |
| CanvaChapterEditor.CreateBlock | components/CanvaChapterEditor.tsx:87-177 | `createBlock(type)`: a well-formed block of that kind with the new id, order = the list length, at (0,0), width 100, height 60 (20 for a divider) |
| CanvaChapterEditor.AddBlock | components/CanvaChapterEditor.tsx:179-183 | `addBlock` keeps the old blocks and appends the new one at order = old length, so a list numbered by position stays so |
| CanvaChapterEditor.UpdateBlock | components/CanvaChapterEditor.tsx:185-190 | `updateBlock` patches the blocks with the id and leaves the others alone |
| CanvaChapterEditor.UpdateBlockFacts | components/CanvaChapterEditor.tsx:185-190 | updating an absent id changes nothing; an update that does not set `order` keeps a list numbered by position |
| CanvaChapterEditor.DeleteBlock | components/CanvaChapterEditor.tsx:192-197 | `deleteBlock` leaves exactly the blocks with another id, in their old relative order, renumbered by position |
| CanvaChapterEditor.DeleteBlockKeeps | components/CanvaChapterEditor.tsx:192-194 | every block with another id survives a delete, up to its order, and the list shrinks by exactly the number of blocks carrying the id |
| Export.SortChapters | lib/export.ts:42 | `chapters.sort` by `order` rearranges the caller's array in place into the stable sort of its old contents |
| Export.InsertChapter | lib/export.ts:42 | one insertion pass: the first `i + 1` chapters become the sorted insertion of `a[i]`, the rest is untouched |
| Export.ShiftGreater | lib/export.ts:42 | the chapters before `i` with a greater order move one place up, leaving the slot where `a[i]` belongs |
| Export.SortPass | lib/export.ts:42 | after pass `i` the array's prefix is the sort of the input's prefix |
| Export.SortedChapters | lib/export.ts:42 | the sorted chapters ascend by order, are a permutation of the input, and chapters with equal order keep their relative order |
| Export.ReplacePair | lib/export.ts:176-177 | the global lazy `marker(.*?)marker` replacement; the empty text stays empty |
| Export.ReplacePairUnchanged | lib/export.ts:176-177 | text without the marker is left unchanged |
| Export.MatchEnd | lib/export.ts:176-177 | the closing marker found is the nearest one on the same line, or none |
| Export.ReplaceAll | lib/export.ts:178-179 | the global literal replacement; the empty text stays empty |
| Export.ReplaceAllUnchanged | lib/export.ts:178-179 | text without the pattern is left unchanged |
| Export.ReplacePairLines | lib/export.ts:176-177 | `.` does not match a line break, so the pair substitution works line by line |
| Export.MarkdownStrong | lib/export.ts:176 | `**x**` becomes `<strong>x</strong>` when `x` holds no star and no line break |
| Export.MarkdownEm | lib/export.ts:177 | `*x*` becomes `<em>x</em>` when `x` is non-empty and holds no star and no line break |
| Export.PlainBodyVerbatim | lib/export.ts:175-181 | a body without stars and newlines is emitted verbatim: nothing is HTML-escaped |
| Export.NoNewlineLeft | lib/export.ts:179 | after the last substitution no newline is left |
| Export.SubtitleHtml | lib/export.ts:134 | the subtitle heading appears only for a present, non-empty subtitle |
| Export.AuthorName | lib/export.ts:135 | the author line names the author, or "Auteur" when there is none |
| Export.TocEntries | lib/export.ts:144-152 | one table of contents entry per chapter |
| Export.SectionParagraphs | lib/export.ts:172-183 | one (possibly empty) paragraph per section |
| Export.ChapterBlocks | lib/export.ts:161-193 | one chapter block per chapter |
| Export.GeneratePreviewHtml | lib/export.ts:39-201 | `generatePreviewHTML` sorts the caller's chapters in place and returns the page for the sorted chapters |
| Export.Render | lib/export.ts:44-200 | the generator's loops append exactly the page of `PreviewHtml` |
| Export.AppendToc | lib/export.ts:144-152 | the table of contents loop appends the entries in chapter order |
| Export.AppendChapter | lib/export.ts:161-193 | the chapter loop's body appends the chapter's heading, its sections' paragraphs in order, and the placeholder when it has no section |
| Export.TocMatchesChapters | lib/export.ts:147-168 | chapter `k` appears in the table of contents as number `k + 1` linking to `#chapter-id`, and as the heading "Chapitre k+1" with that anchor |
| Export.TitleVerbatim | lib/export.ts:50-133 | the book title is inserted unescaped as the page title and on the cover |
| Export.NoSectionsPlaceholder | lib/export.ts:185-187 | a chapter without sections shows "Contenu à venir..." |
| Export.EmptyBodiesNoPlaceholder | lib/export.ts:173-187 | a chapter whose sections all have empty bodies shows an empty content block and no placeholder |
| Utils.SliceTo | lib/utils.ts:44 | `slice(0, end)`: a prefix of the text, of length `end` when it is in range, counted from the back when negative, never longer than the text |
| Utils.TruncateText | lib/utils.ts:42-45 | text within the limit is returned as it is; longer text ends in "..." and is at most three characters over the limit |
| Utils.TruncateKeepsPrefix | lib/utils.ts:44 | before the "..." stands the trimmed prefix of the text cut at the limit |
| Utils.SplitSpaces | lib/utils.ts:49 | `split(/\s+/)` yields at least one piece and no piece holds white space |
| Utils.SplitKeepsWords | lib/utils.ts:49 | the pieces, joined, are exactly the text's non-space characters |
| Utils.TrimmedWordsNonEmpty | lib/utils.ts:49 | trimmed non-empty text splits into non-empty words only |
| Utils.ReadingTime | lib/utils.ts:47-51 | the estimate is at least one minute and is the ceiling of the word count over 200 |
| Utils.ReadingTimeCountsWords | lib/utils.ts:49-50 | blank text counts as one (empty) word and takes one minute; otherwise every counted piece is a real word |
| Utils.SectionMd | lib/utils.ts:59-64 | a section is its "### heading" line when the heading is present and not empty, then its body and a blank line |
| Utils.ExportAsMarkdown | lib/utils.ts:53-68 | the loop builds exactly the document: the title line, then each chapter's numbered heading and sections in order |
| Utils.AppendChapterMd | lib/utils.ts:57-64 | one chapter iteration appends the chapter's heading and its sections |
| Utils.StartsWithTitle | lib/utils.ts:54 | the document opens with "# title" and a blank line |
| Utils.AppendChapterLast | lib/utils.ts:56-65 | chapters are emitted in the given order, without sorting: one more chapter appends its text at the end |
| Utils.ChapterHeadingShown | lib/utils.ts:57 | chapter `k` is headed "## k+1. title" |
| CanvaPageEditor.ZoomedIn | components/CanvaPageEditor.tsx:65-67 | zooming in adds at most ten, keeps a zoom within 50 to 200 inside that range, and does nothing exactly at 200 or above |
| CanvaPageEditor.ZoomedOut | components/CanvaPageEditor.tsx:69-71 | zooming out removes at most ten, keeps the zoom in range, and does nothing exactly at 50 or below |
| CanvaPageEditor.ZoomInThenOut | components/CanvaPageEditor.tsx:65-71 | in then out restores a zoom from 50 to 190; from 191 to 199 it lands on 190 |
| CanvaPageEditor.PrevIndex | components/CanvaPageEditor.tsx:53-57 | the previous page is one back, never below the first; nothing happens on the first page |
| CanvaPageEditor.NextIndex | components/CanvaPageEditor.tsx:59-63 | the next page is one on, never past the last; nothing happens on the last page |
| CanvaPageEditor.PageSections | components/CanvaPageEditor.tsx:93 | the sections handed to the export and the preview are exactly those of the book's pages |
| CanvaPageEditor.NewPageDraft | components/CanvaPageEditor.tsx:129-133 | a new page is "Page n+1" at order n for a book with n pages |
| CanvaPageEditor.PageEditor.constructor | components/CanvaPageEditor.tsx:39-41 | the editor starts on page 0 at zoom 100 with no pages |
| CanvaPageEditor.PageEditor.Refresh | components/CanvaPageEditor.tsx:46-49 | the pages become the book's chapters sorted by order; page index and zoom are kept |
| CanvaPageEditor.PageEditor.PrevPage | components/CanvaPageEditor.tsx:53-57 | the page index moves as `PrevIndex` says and nothing else changes |
| CanvaPageEditor.PageEditor.NextPage | components/CanvaPageEditor.tsx:59-63 | the page index moves as `NextIndex` says and nothing else changes |
| CanvaPageEditor.PageEditor.ZoomIn | components/CanvaPageEditor.tsx:65-67 | the zoom moves as `ZoomedIn` says and stays within 50 to 200 |
| CanvaPageEditor.PageEditor.ZoomOut | components/CanvaPageEditor.tsx:69-71 | the zoom moves as `ZoomedOut` says and stays within 50 to 200 |
| CanvaPageEditor.PageEditor.AddPage | components/CanvaPageEditor.tsx:128-134 | adding a page creates the next page in the chapters store and selects index n, the page count before the addition |
| CanvaPageEditor.PagesAfterAdd | components/CanvaPageEditor.tsx:47-133 | once refreshed, the book's pages are the old pages with the new one inserted after every page whose order does not exceed its own |
| CanvaPageEditor.AddedPageSelected | components/CanvaPageEditor.tsx:128-134 | when no page is ordered above the page count, the selected index shows the added page |
| CanvaPageEditor.AddedPageMissedAt | components/CanvaPageEditor.tsx:128-134 | when the new order falls between two existing orders, the selected index shows the later old page and not the added one |
| CanvaPageEditor.AddedPageMissed | components/CanvaPageEditor.tsx:128-134 | concrete case: pages at orders 0 and 5 plus a new page at order 2 put the new page second while the third is selected |
| CanvaPageEditor.FirstAbove | components/CanvaPageEditor.tsx:134 | the first position whose page order exceeds a given order |
| CanvaPageEditor.InsertAtFirstAbove | components/CanvaPageEditor.tsx:47-134 | in a sorted page list, that position is where the new page lands |
| CanvaPageEditor.FirstAboveSelectsAdded | components/CanvaPageEditor.tsx:134 | selecting `FirstAbove` of the new page's order always shows the added page |
| BookPreview.ZoomedIn | components/BookPreview.tsx:36-38 | zooming in keeps the zoom a multiple of ten from 50 to 150 and does nothing exactly at 150 or above |
| BookPreview.ZoomedOut | components/BookPreview.tsx:40-42 | zooming out keeps the zoom a level from 50 to 150 and does nothing exactly at 50 or below |
| BookPreview.ZoomStaysInRange | components/BookPreview.tsx:19-42 | from the initial level, any run of button presses keeps the zoom a multiple of ten from 50 to 150 |
| BookPreview.ZoomRoundTrip | components/BookPreview.tsx:36-42 | below the cap, in then out restores the zoom; above the floor, out then in does |
| BookPreview.Preview.constructor | components/BookPreview.tsx:18-20 | the preview opens at zoom 100, not exporting |
| BookPreview.Preview.PreviewHtml | components/BookPreview.tsx:22 | each render sorts the caller's chapters in place and shows the page for the sorted chapters |
| BookPreview.Preview.ZoomIn | components/BookPreview.tsx:36-38 | the zoom moves as `ZoomedIn` says; the export flag is kept |
| BookPreview.Preview.ZoomOut | components/BookPreview.tsx:40-42 | the zoom moves as `ZoomedOut` says; the export flag is kept |
| BookPreview.Preview.BeginExport | components/BookPreview.tsx:25 | the export flag is raised; the zoom is kept |
| BookPreview.Preview.EndExport | components/BookPreview.tsx:31-33 | the export flag is lowered whether the export succeeded or failed; the zoom is kept |
| BookPreview.RenderAgainStable | components/BookPreview.tsx:22 | rendering again gives the same page: sorting already sorted chapters changes nothing |
| ChapterCanvas.CommittedHeading | components/ChapterCanvas.tsx:24 | the stored heading is the trimmed draft, or none exactly when the draft is blank |
| ChapterCanvas.HeadingCommit | components/ChapterCanvas.tsx:22-27 | an update is sent exactly when the trimmed draft differs from the current heading, and it sets only the heading |
| ChapterCanvas.HeadingOnly | components/ChapterCanvas.tsx:24 | the heading update touches no other field |
| ChapterCanvas.BodyOnly | components/ChapterCanvas.tsx:29-31 | the content update sets the body and nothing else |
| ChapterCanvas.CommitSettles | components/ChapterCanvas.tsx:22-27 | after a commit the section holds the trimmed heading, every other field is kept, and committing the same draft again sends nothing |
| ChapterCanvas.BodyEditOnlyBody | components/ChapterCanvas.tsx:29-108 | a body edit applied through the store changes the body and nothing else |
| ChapterCanvas.SectionEditor.constructor | components/ChapterCanvas.tsx:19-20 | the editor starts closed with the stored heading (or "") as draft |
| ChapterCanvas.SectionEditor.StartEditing | components/ChapterCanvas.tsx:58 | a click opens the editor and keeps the draft |
| ChapterCanvas.SectionEditor.Type | components/ChapterCanvas.tsx:42 | typing replaces the draft |
| ChapterCanvas.SectionEditor.CommitHeading | components/ChapterCanvas.tsx:22-45 | Enter or blur yields `HeadingCommit`'s update and closes the editor |
| ChapterCanvas.SectionEditor.Cancel | components/ChapterCanvas.tsx:46-49 | Escape restores the stored heading as draft and closes the editor without an update |
| ChapterCanvas.NewSectionDraft | components/ChapterCanvas.tsx:98-103 | a new section of the chapter has an empty heading and body and order = the chapter's section count |
| ChapterCanvas.AddSection | components/ChapterCanvas.tsx:97-104 | `handleAddSection` appends that section to the sections store |
| ChapterCanvas.SectionsAfterAdd | components/ChapterCanvas.tsx:95-104 | the chapter's sections after the addition are the old ones with the new one inserted by order |
| ChapterCanvas.AddedSectionLast | components/ChapterCanvas.tsx:97-104 | when no section is ordered above the count, the new section is shown last |
| GenerateBook.JsonText | app/api/generate-book/route.ts:98-115 | a reply with a "```json" fence always yields the text inside it; a reply without one yields itself when it starts with "{" and nothing otherwise |
| GenerateBook.FencedJson | app/api/generate-book/route.ts:105-108 | with a closing fence, the JSON text is exactly the trimmed text between the first "```json" and the next "```" |
| GenerateBook.BookData | app/api/generate-book/route.ts:96-125 | a book is taken from the reply only when the content is present, holds JSON text, decodes, has a truthy title and a non-empty chapter array |
| GenerateBook.ValidBookKept | app/api/generate-book/route.ts:96-125 | a valid decoded book is kept as it is |
| GenerateBook.DefaultFallback | app/api/generate-book/route.ts:131-140 | the fallback book has eight chapter titles |
| GenerateBook.FallbackTitles | app/api/generate-book/route.ts:131-140 | the eight fallback chapter titles |
| GenerateBook.FallbackContent | app/api/generate-book/route.ts:147-159 | each fallback chapter opens with "This chapter covers " and its title lowercased |
| GenerateBook.Skeleton | app/api/generate-book/route.ts:145-161 | one fallback chapter per title, with that title, the fixed content, numbered from 1 |
| GenerateBook.FallbackBook | app/api/generate-book/route.ts:142-162 | the fallback book has the request's title, the description or "A comprehensive guide to " + the lowercased title as subtitle, and the fallback chapters |
| GenerateBook.Pitch | app/api/generate-book/route.ts:199 | the pitch is the first 100 characters of the content plus "...", so at most 103 characters |
| GenerateBook.MapChapter | app/api/generate-book/route.ts:194-200 | a returned chapter keeps title and content, gets the pitch, and takes its order from the reply unless that is missing or zero, when it is the position plus one |
| GenerateBook.MapChapters | app/api/generate-book/route.ts:194-200 | one returned chapter per reply chapter, chapter `i` mapped at position `i` |
| GenerateBook.Generate | app/api/generate-book/route.ts:25-212 | a body that does not parse or is `null` answers 500 "Failed to generate book" with the thrown message as `details`; otherwise 400 exactly when the title or the API key is missing or empty; a book is generated only from a completion that answered; it always has the fixed author, "fr" and "general", and no cover without a cover key; a chapter without content answers 500 with the thrown TypeError's message as `details` |
| GenerateBook.UnusableReplyFallsBack | app/api/generate-book/route.ts:127-201 | an unusable reply gives the fallback book: the request's title, the eight fixed chapters numbered from 1, and the description or the generated subtitle |
| GenerateBook.UsableReplyMapped | app/api/generate-book/route.ts:184-211 | a usable reply keeps its title, subtitle and chapters one for one; a chapter without content, and only that, makes the whole answer a 500 "Failed to generate book" whose `details` is the thrown message |
| GenerateBook.FailedCompletion | app/api/generate-book/route.ts:206-211 | a failed completion call answers 500 with "OpenRouter API error: " and the status text |
| GenerateBook.ThrownCompletion | app/api/generate-book/route.ts:93-211 | a completion call that rejects, or whose reply body is not JSON, answers 500 "Failed to generate book" with the thrown message as `details` |
| QuickBookGenerator.StepText | components/QuickBookGenerator.tsx:148 | a failure shows "❌ " and the message; no step shows the empty text |
| QuickBookGenerator.ErrorMessage | components/QuickBookGenerator.tsx:97-98 | the error shown is the reply's `details`, else its `error`, else "Failed to generate book" |
| QuickBookGenerator.ReplyOf | components/QuickBookGenerator.tsx:96-101 | a book answer yields its book; a failed answer yields its `details` (none for a 400) and its `error` |
| QuickBookGenerator.MissingContentShown | app/api/generate-book/route.ts:199-211 | a usable reply with a chapter lacking content fails the generation, and the dialog shows the runtime's TypeError message, not "Failed to generate book" |
| QuickBookGenerator.EmptyBookDraft | components/QuickBookGenerator.tsx:58-64 | the empty-mode book: trimmed title, the description as subtitle unless empty, author "Author", "fr", "general", no cover |
| QuickBookGenerator.SavedBookDraft | components/QuickBookGenerator.tsx:106-113 | the generated-mode book copies title, subtitle, author, language, audience and cover from the reply |
| QuickBookGenerator.SavedChapter | components/QuickBookGenerator.tsx:120-125 | each generated chapter is saved under the new book with its title, order and pitch |
| QuickBookGenerator.SavedSection | components/QuickBookGenerator.tsx:128-133 | each generated chapter gets one section headed by its title, holding its content, at order 1 |
| QuickBookGenerator.SavedChapters | components/QuickBookGenerator.tsx:119-125 | one saved chapter per generated chapter, in reply order |
| QuickBookGenerator.SavedSections | components/QuickBookGenerator.tsx:119-134 | one saved section per generated chapter, in reply order |
| QuickBookGenerator.Generator.constructor | components/QuickBookGenerator.tsx:38-44 | the dialog starts with the template's title and description (or empty), content generation on, nothing running |
| QuickBookGenerator.Generator.Generate | components/QuickBookGenerator.tsx:46-150 | a blank title does nothing; the empty mode creates one book; without a key nothing is created; a failed call shows its message and creates nothing; a generated book is saved with one chapter and one section per chapter; the title, description and mode are never changed, nor are the books store's current book, chapters and sections |
| QuickBookGenerator.Generator.Produce | components/QuickBookGenerator.tsx:52-149 | the same outcomes past the title check, leaving the books store's current book, chapters and sections as they were |
| QuickBookGenerator.Generator.CreateEmptyBook | components/QuickBookGenerator.tsx:53-68 | the empty mode appends the book made from the draft, ends at 100 and remembers the saved book; the books store's current book, chapters and sections are kept |
| QuickBookGenerator.Generator.SaveGeneratedBook | components/QuickBookGenerator.tsx:101-138 | the generated mode appends the book, then the chapters and the sections, ends at 100 and remembers the saved book; the books store's current book, chapters and sections are kept |
| QuickBookGenerator.SaveChapters | components/QuickBookGenerator.tsx:119-134 | the loop appends exactly the saved chapters and the saved sections, in reply order |
| QuickBookGenerator.OneSectionPerChapter | components/QuickBookGenerator.tsx:119-134 | after saving, every generated chapter has exactly one section, the one made from it |
| QuickBookGenerator.BookChaptersAreGenerated | components/QuickBookGenerator.tsx:119-125 | the new book's chapters, as the store lists them, are the generated ones sorted by order, reply order kept among equal orders |
| NotificationSystem.WithId | components/NotificationSystem.tsx:32-35 | the added notification is the draft with the new id |
| NotificationSystem.AutoRemoveDelay | components/NotificationSystem.tsx:37-43 | a duration of 0 schedules no removal; a missing duration waits 5000 ms; any other duration is used as given |
| NotificationSystem.Without | components/NotificationSystem.tsx:45-48 | removal keeps exactly the notifications with another id |
| NotificationSystem.Delivered | components/NotificationSystem.tsx:36-47 | a broadcast gives every registered listener the current list and leaves other hook states alone |
| NotificationSystem.NotificationStore.constructor | components/NotificationSystem.tsx:29-31 | the store starts with no notifications and no listeners |
| NotificationSystem.NotificationStore.Broadcast | components/NotificationSystem.tsx:36-47 | every listener receives the current list |
| NotificationSystem.NotificationStore.AddNotification | components/NotificationSystem.tsx:32-44 | the notification is appended under the new id, every listener is told, and the removal delay is returned |
| NotificationSystem.NotificationStore.RemoveNotification | components/NotificationSystem.tsx:45-48 | every notification with the id is dropped and every listener is told |
| NotificationSystem.NotificationStore.Subscribe | components/NotificationSystem.tsx:52-58 | a mounted hook registers its listener with an empty list |
| NotificationSystem.NotificationStore.Unsubscribe | components/NotificationSystem.tsx:60-62 | unmounting removes that listener, and only it |
| NotificationSystem.RemoveUnknown | components/NotificationSystem.tsx:45-48 | removing an unknown id changes nothing |
| NotificationSystem.RemoveAppend | components/NotificationSystem.tsx:45-48 | removal keeps order and works piecewise over a concatenation |
| NotificationSystem.AddThenRemove | components/NotificationSystem.tsx:32-48 | adding under a new id and removing that id restores the list |
| ABTesting.VariantName | components/ABTesting.tsx:8-12 | every variant is stored under a non-empty spelling |
| ABTesting.ParseVariant | components/ABTesting.tsx:50 | a stored value names a variant exactly when it is "control", "variant_a" or "variant_b" |
| ABTesting.ParseVariantName | components/ABTesting.tsx:8-50 | reading back a variant's stored spelling gives that variant |
| ABTesting.Drawn | components/ABTesting.tsx:54-55 | the draw picks the variant at the drawn position of control, variant_a, variant_b |
| ABTesting.Assign | components/ABTesting.tsx:48-58 | a valid stored variant is used and nothing is written; otherwise the drawn variant is used and written back |
| ABTesting.AssignSticky | components/ABTesting.tsx:48-58 | after one visit, every later visit gets the same variant and writes nothing, whatever it draws |
| ABTesting.FlagsOf | components/ABTesting.tsx:89-91 | each flag holds exactly when the variant is its own |
| ABTesting.ExactlyOneFlag | components/ABTesting.tsx:89-91 | exactly one of the three flags holds |
| ABTesting.SessionIdFor | components/ABTesting.tsx:96-103 | a stored non-empty session id is kept; otherwise the new id is used |
| ABTesting.Storage.constructor | components/ABTesting.tsx:78-97 | the storage starts with no events and no session id |
| ABTesting.Storage.GetSessionId | components/ABTesting.tsx:96-103 | hands out the stored id, or stores and hands out the new one |
| ABTesting.Storage.TrackEvent | components/ABTesting.tsx:67-80 | appends exactly one event with the test, variant, name, time and session id, and leaves that session id stored |
| ABTesting.TrackTwice | components/ABTesting.tsx:67-103 | two events tracked in a row carry the same session id |
| ABTesting.SessionStable | components/ABTesting.tsx:96-103 | once an id has been handed out, later calls hand out the same id |
| ABTesting.RecordEvent | components/ABTesting.tsx:116-133 | one event changes only its own variant's accumulator, creating it when missing, by one bump |
| ABTesting.RowSnoc | components/ABTesting.tsx:116-134 | appending an event moves only the row of its own variant |
| ABTesting.ComputeStats | components/ABTesting.tsx:111-140 | the statistics have a row exactly for the variants with events of the test, and each row is the reduction of that variant's events |
| ABTesting.OtherTestsIgnored | components/ABTesting.tsx:112 | events of other tests do not change the statistics |
| ABTesting.RowTotal | components/ABTesting.tsx:125 | a variant's total is the number of its events |
| ABTesting.RowSessions | components/ABTesting.tsx:126-138 | a variant's sessions are the session ids of its events, never more than its total |
| ABTesting.RowNames | components/ABTesting.tsx:128-131 | the counted event names are exactly the names of the variant's events, without repeats |
| ABTesting.RowTypesSum | components/ABTesting.tsx:128-131 | the per-name counters add up to the variant's total |
| ABTesting.StatsRow | components/ABTesting.tsx:116-140 | each shown row: total = its events, distinct sessions no more than the total, counters summing to the total |

## Left out

- Store.BookFromDraft, BooksRoute.NewBook, TemplatesPage.TemplateBook: the source reads the clock twice, once for `createdAt` and once for `updatedAt` (lib/store.ts:43-44, app/api/books/route.ts:26-27, app/templates/page.tsx:64-65), and the two readings can differ by a millisecond; the model takes one reading `now` for both.
- The UI store (`useUIStore` in lib/store.ts) and zustand's `persist` to local storage: view state only.
- Network calls (OpenRouter, Sunra, the internal routes): each reply is an input value; the 15-second race for the cover image is left out and its outcome (a URL or none) is a parameter.
- Timers and delays: the notification auto-dismiss is modelled only as the decision whether to schedule it and after how long; `debounce`, redirect delays and `router.push` navigation are not modelled.
- File, `localStorage` and `sessionStorage` persistence: the users file, the A/B event log and the session id are fields that are read and replaced as a whole; file-system errors are not modelled.
- `exportToPDF`, `downloadFile` and the export route only wrap the preview HTML in a download; they are not modelled.
- `formatDate`, `formatDateTime` and `cn` are foreign formatting calls, not modelled; `crypto.randomUUID` and `Math.random` ids, draws and picks are parameters, with freshness of ids stated as a precondition.
- `toLowerCase` is modelled on ASCII letters only, and string lengths count `char`s, which stand for UTF-16 code units; no Unicode case folding or normalisation.
- Floating point: a text block's `lineHeight` is an integer number of tenths (16 for 1.6); the millimetre page-size arithmetic is not modelled.
- A decoded block whose `type` is not one of the six tags, and JSON fields of the wrong type (a non-string title, a non-integer `numChapters`), are not modelled: the codec only produces well-typed values. A request body that fails to decode is `None`, except in the book generation route, where it carries the thrown message the route reports.
- CanvaChapterEditor.DragEnd: requires both the dragged and the target id to be present in the list, since only listed blocks can be dragged or dropped onto.
- CanvaChapterCanvas.SaveBlocks: requires every block's type tag to match its content shape. A loaded block can break this, because loading copies a decoded body's `type` and `content` separately (a stored body whose `type` is "text" and whose `content` is an image's loads as a text-tagged block without text). Saving such a block is not modelled: the source then writes an undefined `bodyMd` for a text-tagged block and an undefined `heading` for a heading-tagged one (components/CanvaChapterCanvas.tsx:118-119,135), values the section record cannot hold here.
- Store.PatchBook: states only that the id is kept; the merge of the given fields into the record is not restated as a contract.
- Store.PatchChapter: states only that the id is kept; the merge of the given fields into the record is not restated as a contract.
- Store.PatchSection: states only that the id is kept; the merge of the given fields into the record is not restated as a contract.
- The indentation and line breaks of the HTML templates in lib/export.ts are reduced to single line breaks.
- GenerateBook: a parsed chapter without a title is not modelled (the title is a string). A chapter without content makes `chapter.content.substring` throw a TypeError; the runtime's text of that message is not modelled, so it is the parameter `thrown`.
- The bullet character of the generated fallback text is kept exactly as the source file spells it, including its mis-encoded bytes.
- QuickBookGenerator: `isGenerating` is never reset after a successful generation, as in the source; the notifications the page raises are not modelled.
- Rewrite: tone lookup on the prototype of the response table (a tone such as `toString`) is not modelled; any tone without a canned text falls back to the neutral text.
- ABTesting: an event's free-form `properties` and the `console.log` of every tracked event are dropped. The counters are a map from event name to count, so an event name that is a key of `Object.prototype` (such as "constructor") counts like any other name. In the source its counter would become NaN (components/ABTesting.tsx:128-131). The application itself tracks only "cta_click" and "feature_card_click".
- Auth: a role string other than "admin" or "user" is kept as stored; the token's other claims and `withAuth`'s callback URL are not modelled.
- The `guidance_scale` and other image-generation parameters, and the internals of cover generation, are not modelled; the cover URL is a parameter.

## Findings

| source | as written | input that shows it | evidently intended | confidence | as-written member | corrected member |
|---|---|---|---|---|---|---|
| components/CanvaPageEditor.tsx:132-134 | the new page gets order `n` (the page count) and index `n` is selected | pages of the book at orders 0 and 5 (after pages were deleted): the new page has order 2, sorts to index 1, and index 2 shows the page at order 5 | select the position the new page takes in the order-sorted list, the first index whose order exceeds the new order | not executed | CanvaPageEditor.AddedPageMissed | CanvaPageEditor.FirstAboveSelectsAdded |

`CanvaPageEditor.PageEditor.AddPage` keeps the index the source selects; `FirstAbove` is the
corrected selection, and `FirstAboveSelectsAdded` proves that it always shows the added page.
