# mf-react-native, modelled in Dafny

A Dafny model of the logic inside a React Native savings app. The app has
screens, styles and network calls. This project covers the parts that are
logic:

- **Genealogy tree** (`tree.tsx`, `genealogyTree.tsx`):
  - The tree's placement on the canvas. The layout library supplies the
    layout coordinates, and the model takes them as input.
  - The transformation of backend member records into the two-level tree.
  - The test that decides whether a reply is usable, and the fallback example tree.
  - The selection, which starts at the root and changes on a tap.
  - The information panel.
- **Authentication state machine** (`routing.tsx`, `routing.jsx`):
  - The reducer over the authentication state.
  - The choice between the splash screen, the signed-out stack and the
    signed-in stack.
- **Deposit form** (`deposit.tsx`):
  - The amount filter that keeps only the digits.
  - The warning flag.
  - The chain of guards run on confirmation.
- **Registration forms** (`completeRegistration.tsx`, `completeRegistration.jsx`):
  - Updating a single field.
  - The ordered scan for the first empty required field.
  - The "Please enter your …" message, built from the camelCase key.
  - The payload, and the success and failure handling.
- **Code verification** (`codeVerification.tsx`):
  - The six-character verify gate.
  - The 60-second resend countdown and its reset.
  - The resend label.

One module per source file:

| file | module | source |
|---|---|---|
| `option.dfy` | `Options` | helper: the optional value used for `null`/`undefined` |
| `text.dfy` | `Text` | helper: ASCII case, decimal printing, camelCase to words |
| `tree_data.dfy` | `TreeData` | the `TreeNode` record shared by `tree.tsx` and `genealogyTree.tsx` |
| `tree_view.dfy` | `TreeView` | `src/components/tree.tsx` |
| `genealogy_tree.dfy` | `GenealogyTree` | `src/screens/genealogyTree.tsx` |
| `routing.dfy` | `Routing` | `src/routes/routing.tsx` |
| `routing_js.dfy` | `RoutingJs` | `src/routes/routing.jsx` |
| `deposit.dfy` | `Deposit` | `src/screens/deposit.tsx` |
| `form_check.dfy` | `FormCheck` | what both registration screens share |
| `registration.dfy` | `Registration` | `src/components/completeRegistration.tsx` |
| `registration_js.dfy` | `RegistrationJs` | `src/components/completeRegistration.jsx` |
| `code_verification.dfy` | `CodeVerification` | `src/components/codeVerification.tsx` |

How the model represents the source:

- **Pure logic** becomes datatypes and functions. This covers placement, the
  transformation, the reducers, the digit filter and the message format.
- **Screens whose state changes through `useState` setters** become classes:
  - `GenealogyTreeScreen`
  - `DepositScreen`
  - the two `CompleteRegistrationScreen`s
  - `CodeVerificationScreen`

  Each field of a class is one piece of state. Each method is one handler and
  states the new state. The `for` loops of the two submit handlers are `while`
  loops, proved against the reference function `FormCheck.FirstMissing`.
- **Values from outside the app are parameters:**
  - the screen width;
  - the layout coordinates;
  - the backend's reply;
  - what the registration or verification request answers.
- **The layout is an input.** The tree is laid out by `d3.hierarchy` and
  `d3.tree().nodeSize([120, 80])`, which are not part of this model. The
  layout is a `LaidOut` tree with an `(x, y)` per node.
  - `TreeView.Mirrors(layout, tree)` is the library's promise that the
    layout has the record tree's shape. It appears only as a precondition.
  - `descendants()` is breadth-first, root first (`TreeView.Bfs`).
  - `links()` lists each node's child links in that same order.
- **JavaScript `a || b` on strings** means "use `b` when `a` is missing or
  empty". The model writes this as `Option<string>` and checks both cases.

Three facts about the code shape the tree part of the model:

- `d3.tree()` computes the layout, and the code has no layout algorithm of
  its own. The model takes the layout as input and assumes nothing about
  depth and y.
- Every circle has its own tap handler, which passes on that node's record
  (`tree.tsx:67`). There is no coordinate hit-testing, so selection is
  modelled by the index of the tapped circle and has no miss case.
- The code raises no error for an empty node list or a cyclic input. The
  node list always holds at least the root, and a datatype tree cannot be
  cyclic, so `Min` and `Max` only need their non-empty precondition.

## Model

| member | source | states |
|---|---|---|
| `Text.ToLower` | src/components/completeRegistration.tsx:57 | lower-casing keeps the length, turns each capital into its lower-case letter and keeps every other character, so no capital is left |
| `Text.ToUpper` | src/screens/deposit.tsx:60 | upper-casing keeps the length, turns each lower-case letter into its capital and keeps every other character, so no lower-case letter is left |
| `Text.NatToString` | src/screens/genealogyTree.tsx:164 | the printed index is a non-empty string of decimal digits |
| `Text.ParseNatToString` | src/screens/genealogyTree.tsx:164 | reading the printed number back gives the number |
| `Text.NatToStringInjective` | src/screens/genealogyTree.tsx:164 | different numbers print differently |
| `Text.Humanize` | src/components/completeRegistration.tsx:57 | the key with a space before each capital, lower-cased: no capitals remain |
| `Text.CamelizeHumanize` | src/components/completeRegistration.tsx:57 | the formatting loses nothing: a key without spaces is recovered from its words |
| `Text.HumanizeOneCapital` | src/components/completeRegistration.tsx:57 | a key with one capital letter between two lower-case runs becomes the two runs joined by a space, the capital lower-cased |
| `Text.HumanizeContactNumber` | src/components/completeRegistration.tsx:57 | "contactNumber" is written "contact number" |
| `TreeView.Bfs` | src/components/tree.tsx:34 | the breadth-first listing has exactly one entry per node of the queued subtrees |
| `TreeView.Descendants` | src/components/tree.tsx:34 | one entry per node, the root first |
| `TreeView.ChildLinks` | src/components/tree.tsx:35 | one link per child of the node, source the node, target that child |
| `TreeView.LinksOf` | src/components/tree.tsx:35 | every link joins a listed node to one of its children |
| `TreeView.Links` | src/components/tree.tsx:35 | a tree of n nodes has n - 1 links |
| `TreeView.BfsLinkCount` | src/components/tree.tsx:34-35 | the queued subtrees have one link fewer per subtree than nodes |
| `TreeView.BfsHasQueue` | src/components/tree.tsx:34 | every queued node is listed |
| `TreeView.BfsHasKids` | src/components/tree.tsx:34-35 | the listing is closed under children, so both ends of every link are listed nodes |
| `TreeView.BfsWithinQueue` | src/components/tree.tsx:34 | every listed node lies inside one of the queued subtrees |
| `TreeView.MirroredPart` | src/components/tree.tsx:30 | a node of a layout that mirrors the record tree carries a record of that tree |
| `TreeView.Min` | src/components/tree.tsx:43-46 | `Math.min` over a non-empty list: a member of the list below or equal to every entry |
| `TreeView.Max` | src/components/tree.tsx:47-48 | `Math.max` over a non-empty list: a member of the list above or equal to every entry |
| `TreeView.OffsetX` | src/components/tree.tsx:38-40 | the horizontal shift that puts the root at half the screen width; stated by `TreeView.Render` (root glyph at `screenWidth / 2`) and `TreeView.RigidShift` |
| `TreeView.OffsetY` | src/components/tree.tsx:42-44 | the vertical shift that puts the topmost node `NODE_RADIUS + 20` below the top; stated by `TreeView.TopRowAtPadding` and `TreeView.RigidShift` |
| `TreeView.Fill` | src/components/tree.tsx:66 | "#4CAF50" exactly for status "active", "#9E9E9E" otherwise |
| `TreeView.Render` | src/components/tree.tsx:37-100 | one circle per node and one line per link; the root's circle is at half the screen width and taps the root's record |
| `TreeView.TopRowAtPadding` | src/components/tree.tsx:43-74 | every circle centre is at least 36 px down, and the topmost one is exactly 36 px down |
| `TreeView.SingleNodeCanvas` | src/components/tree.tsx:38-50 | a tree of one node is drawn at (half the screen width, 36) on a 200 by 200 canvas with no lines |
| `TreeView.RigidShift` | src/components/tree.tsx:73-74 | all nodes move by the same vector, so differences between them are the layout's |
| `TreeView.CanvasCoversNodes` | src/components/tree.tsx:46-50 | the canvas is the bounding box plus 200 in each direction, so it spans every pair of circle centres |
| `TreeView.LinkEndsListed` | src/components/tree.tsx:35 | each link's source and target are listed nodes, the target a child of the source |
| `TreeView.LineJoinsParentAndChild` | src/components/tree.tsx:54-63 | line k runs from the centre of link k's source, a drawn parent, to the centre of link k's target, one of its drawn children |
| `TreeView.GlyphDecoration` | src/components/tree.tsx:72-95 | radius 16, the fill rule, the name 22 px above the centre and the level 28 px below it |
| `TreeView.TapSelectsNode` | src/components/tree.tsx:67 | tapping the i-th circle hands over exactly the i-th node's record, which is a record of the tree |
| `GenealogyTree.OrElse` | src/screens/genealogyTree.tsx:151-157 | a missing or empty value is replaced by the fallback; a present, non-empty one is kept |
| `GenealogyTree.TransformThrowsOnNullEntry` | src/screens/genealogyTree.tsx:159-172 | the transformation throws exactly when an entry of the downline, or of some downline's own list, is `null` |
| `GenealogyTree.TransformDataToTree` | src/screens/genealogyTree.tsx:150-181 | `transformDataToTree`, with `None` for the throw on a `null` entry; stated by `TransformThrowsOnNullEntry`, `TransformedRoot`, `TransformedChildren`, `TransformedGrandchildren` and `TransformedHeight` |
| `GenealogyTree.TransformedRoot` | src/screens/genealogyTree.tsx:150-158 | the root is level "L0" at "2.4%"; its name, status, join date and savings are the user's, or "You", "inactive", "N/A" and "₱0" where those are missing or empty (all four defaults when the user is missing) |
| `GenealogyTree.TransformedChildren` | src/screens/genealogyTree.tsx:159-169 | one child per downline entry in order, level "L{i+1}" at the position's rate, with the entry's name, status, join date and savings or the defaults "L{i+1}", "inactive", "N/A" and "₱0"; as many grandchildren as the entry's own list; none when the downline is missing |
| `GenealogyTree.ChildRateRule` | src/screens/genealogyTree.tsx:165 | a child's rate is "1.2%" exactly when 2 <= i < 4, and "2.4%" otherwise |
| `GenealogyTree.TransformedGrandchildren` | src/screens/genealogyTree.tsx:170-179 | grandchildren are "L{i+1}-{j+1}" at "1.2%" with no children, and take the sub-entry's name, status, join date and savings or the defaults "L{i+1}-{j+1}", "inactive", "N/A" and "₱0" |
| `GenealogyTree.TransformedHeight` | src/screens/genealogyTree.tsx:150-181 | a transformed tree is at most two levels deep |
| `GenealogyTree.LevelsDistinct` | src/screens/genealogyTree.tsx:164 | different downline positions get different level labels |
| `GenealogyTree.AcceptedExactlyWithChildren` | src/screens/genealogyTree.tsx:64-66 | a reply that transforms is accepted exactly when it has a user and the root has at least one child |
| `GenealogyTree.Acceptable` | src/screens/genealogyTree.tsx:64 | the reply has a user and a non-empty downline; stated by `AcceptedExactlyWithChildren` and used by `FetchGenealogyData` |
| `GenealogyTree.Fallback` | src/screens/genealogyTree.tsx:74-141 | the example tree shown after any throw; `FallbackIsNotATransform` states that it is three levels deep |
| `GenealogyTree.FallbackIsNotATransform` | src/screens/genealogyTree.tsx:74-141 | the example tree is three levels deep, so no reply transforms into it |
| `GenealogyTree.RenderNodeInfo` | src/screens/genealogyTree.tsx:183-211 | no panel exactly when nothing is selected; otherwise the selected member's fields |
| `GenealogyTree.GenealogyTreeScreen.constructor` | src/screens/genealogyTree.tsx:32-35 | no tree, no selection, loading, no error |
| `GenealogyTree.GenealogyTreeScreen.FetchGenealogyData` | src/screens/genealogyTree.tsx:41-148 | the tree becomes the transformed reply if it is acceptable and the transformation does not throw, else the example tree; the selection is that same root; loading ends |
| `GenealogyTree.GenealogyTreeScreen.SelectNode` | src/screens/genealogyTree.tsx:273 | a tap makes the tapped node's record the selection, which stays a node of the tree |
| `GenealogyTree.GenealogyTreeScreen.CurrentView` | src/screens/genealogyTree.tsx:214-260 | the spinner exactly while loading with no tree; otherwise the error text exactly when the error is present and non-empty (`if (error)` treats "" as no error), and the panel for the selection and the tree exactly when it is not |
| `Routing.Screens` | src/routes/routing.tsx:143-193 | splash exactly while loading; once loading has ended, exactly the Main screen with a token and exactly the signed-out stack (Login, EmailVerification, CodeVerification, CompleteRegistration) without one |
| `Routing.Reducer` | src/routes/routing.tsx:67-93 | the reducer, starting from `Routing.InitialState` (lines 60-65); stated action by action by `InitialStateShape`, `RestoreTokenEffect`, `SignInEffect`, `SignOutEffect` and `UnknownActionIgnored`, and over runs of actions by `LoadingEndsOnlyOnRestore` and `TokenIsLastSet` |
| `Routing.InitialStateShape` | src/routes/routing.tsx:60-65 | not loading, not signed out, no token, no user id; the signed-out screens are shown |
| `Routing.RestoreTokenEffect` | src/routes/routing.tsx:69-75 | RESTORE_TOKEN sets token and user id and ends loading; isSignout unchanged |
| `Routing.SignInEffect` | src/routes/routing.tsx:76-82 | SIGN_IN sets token and user id and clears isSignout; isLoading unchanged |
| `Routing.SignOutEffect` | src/routes/routing.tsx:83-89 | SIGN_OUT sets isSignout and clears token and user id; isLoading unchanged |
| `Routing.SignOutIdempotent` | src/routes/routing.tsx:83-89 | signing out twice is signing out once |
| `Routing.UnknownActionIgnored` | src/routes/routing.tsx:90-91 | any other action leaves the state unchanged |
| `Routing.ReduceAllAppend` | src/routes/routing.tsx:67-93 | dispatching two batches of actions is dispatching their concatenation |
| `Routing.LoadingEndsOnlyOnRestore` | src/routes/routing.tsx:67-93 | after a run of actions the state is loading exactly when it was and no RESTORE_TOKEN came |
| `Routing.TokenIsLastSet` | src/routes/routing.tsx:67-93 | the token is the one set by the last action that sets one |
| `RoutingJs.Screens` | src/routes/routing.jsx:98-117 | splash exactly while loading; once loading has ended, exactly the Main screen with a token and exactly the signed-out stack (Login, EmailVerification, CodeVerification, CompleteRegistration) without one |
| `RoutingJs.Reducer` | src/routes/routing.jsx:54-65 | the reducer, starting from `RoutingJs.InitialState` (lines 48-52); stated by `InitialStateShape`, `RestoreTokenEffect`, `SignInSignOutEffect`, `UnknownActionIgnored` and, over runs of actions, `SplashUntilRestore` |
| `RoutingJs.InitialStateShape` | src/routes/routing.jsx:48-52 | loading, not signed out, no token; the splash screen is shown |
| `RoutingJs.RestoreTokenEffect` | src/routes/routing.jsx:57 | RESTORE_TOKEN sets the token and ends loading |
| `RoutingJs.SignInSignOutEffect` | src/routes/routing.jsx:59-61 | SIGN_IN sets the token and clears isSignout; SIGN_OUT sets isSignout and clears the token; isLoading unchanged |
| `RoutingJs.UnknownActionIgnored` | src/routes/routing.jsx:62-63 | any other action returns the previous state |
| `RoutingJs.SplashUntilRestore` | src/routes/routing.jsx:48-100 | from the initial state the splash screen is shown exactly until a RESTORE_TOKEN is dispatched |
| `RoutingJs.MainExactlyWithToken` | src/routes/routing.jsx:106-117 | once loaded, Main is shown exactly with a token and the signed-out stack exactly without |
| `Deposit.DigitsOnly` | src/screens/deposit.tsx:66 | the filtered text holds only digits and is no longer than the input |
| `Deposit.DigitsOnlyIsSubsequence` | src/screens/deposit.tsx:66 | the kept characters keep their original order |
| `Deposit.DigitsOnlyCounts` | src/screens/deposit.tsx:66 | every digit is kept as often as it occurs; no other character is kept |
| `Deposit.DigitsOnlyAppend` | src/screens/deposit.tsx:66 | filtering works piece by piece over concatenation |
| `Deposit.DigitsOnlyUnchangedIff` | src/screens/deposit.tsx:66-72 | the text is unchanged exactly when it is all digits; otherwise it gets shorter |
| `Deposit.DigitsOnlyIdempotent` | src/screens/deposit.tsx:66-72 | filtering the filtered text changes nothing |
| `Deposit.DepositScreen.constructor` | src/screens/deposit.tsx:32-38 | every field is empty and the warning is off |
| `Deposit.DepositScreen.SelectMethod` | src/screens/deposit.tsx:88-92 | tapping a payment method selects its id |
| `Deposit.DepositScreen.SetCardNumber` | src/screens/deposit.tsx:114-120 | the card number is the typed text |
| `Deposit.DepositScreen.SetExpiry` | src/screens/deposit.tsx:122-127 | the expiry is the typed text |
| `Deposit.DepositScreen.SetCvc` | src/screens/deposit.tsx:128-134 | the CVC is the typed text |
| `Deposit.DepositScreen.NumericsOnly` | src/screens/deposit.tsx:63-76 | returns and stores the filtered text; the warning is on exactly when the input had a non-digit |
| `Deposit.DepositScreen.HandleConfirm` | src/screens/deposit.tsx:50-61 | "fill in all required fields" exactly when method or amount is empty; "complete the card details" exactly for a card with a missing card field; otherwise "Via METHOD - ₱amount" |
| `FormCheck.FirstMissing` | src/components/completeRegistration.jsx:49-58 | the position of a missing field with no missing field before it; none exactly when every field is filled |
| `FormCheck.FirstMissingIs` | src/components/completeRegistration.tsx:53-61 | the loop stops at the first empty field: a missing field with no missing field before it is exactly the one reported |
| `FormCheck.FirstMissingIgnoresLaterFields` | src/components/completeRegistration.tsx:53-61 | only the first empty field is reported: filling later fields does not change it |
| `FormCheck.MissingMessage` | src/components/completeRegistration.tsx:55-58 | "Please enter your " + the key in words + "." |
| `FormCheck.MissingMessageNamesField` | src/components/completeRegistration.tsx:57 | the key can be read back from its message |
| `FormCheck.MissingMessageInjective` | src/components/completeRegistration.jsx:52-54 | different keys give different messages |
| `Registration.CompleteRegistrationScreen.constructor` | src/components/completeRegistration.tsx:30-42 | the eight declared fields, all empty, and the route's e-mail |
| `Registration.CompleteRegistrationScreen.HandleInputChange` | src/components/completeRegistration.tsx:44-49 | the named field gets the value; every other field is unchanged |
| `Registration.CompleteRegistrationScreen.HandleSubmit` | src/components/completeRegistration.tsx:51-78 | reports the first empty field in declared order and sends nothing; otherwise sends the fields plus e-mail, and goes to Login only on success |
| `Registration.SentOnlyWhenComplete` | src/components/completeRegistration.tsx:53-66 | a request is sent exactly when all eight fields are filled |
| `Registration.FieldsReportedDistinctly` | src/components/completeRegistration.tsx:33-57 | no two fields share a missing-field message |
| `RegistrationJs.FrontendMessage` | src/components/completeRegistration.jsx:66 | the server's error text when present and non-empty, otherwise the error's message |
| `RegistrationJs.CompleteRegistrationScreen.constructor` | src/components/completeRegistration.jsx:15-25 | the seven initial fields, all empty, and the route's e-mail |
| `RegistrationJs.CompleteRegistrationScreen.HandleInputChange` | src/components/completeRegistration.jsx:29-34 | exactly one field, of any name, is replaced |
| `RegistrationJs.CompleteRegistrationScreen.HandleSubmit` | src/components/completeRegistration.jsx:36-70 | reports the first missing required field and sends nothing; otherwise sends the record plus e-mail; Login only on success; failures show the preferred error text |
| `RegistrationJs.RequiredFieldsExtendInitial` | src/components/completeRegistration.jsx:17-47 | the required list is the initial fields followed by "password" |
| `RegistrationJs.PasswordReportedWhenUntyped` | src/components/completeRegistration.jsx:17-57 | with the seven initial fields filled and no password typed, "password" is reported |
| `CodeVerification.LimitLength` | src/components/codeVerification.tsx:80-87 | the field keeps a prefix of at most six characters, all of a short text |
| `CodeVerification.NextResendTime` | src/components/codeVerification.tsx:27-33 | one interval tick: the count drops by one while positive and no interval runs otherwise; stated over many ticks by `CountdownClamps` and per tick by `CodeVerificationScreen.Tick` |
| `CodeVerification.CountdownClamps` | src/components/codeVerification.tsx:27-37 | after k seconds the countdown from t is max(t - k, 0), never below zero |
| `CodeVerification.ResendReadyAfterSixtySeconds` | src/components/codeVerification.tsx:24-37 | from 60 the countdown reaches zero after exactly 60 seconds |
| `CodeVerification.ResendLabel` | src/components/codeVerification.tsx:103 | "Resend in {digits}s" while the time is positive, "Resend Code" otherwise |
| `CodeVerification.ResendLabelShowsTime` | src/components/codeVerification.tsx:103 | the number in the label is the remaining time |
| `CodeVerification.CodeVerificationScreen.constructor` | src/components/codeVerification.tsx:22-25 | empty code, countdown at 60 |
| `CodeVerification.CodeVerificationScreen.ChangeCode` | src/components/codeVerification.tsx:80-87 | the code is the typed text cut to six characters |
| `CodeVerification.CodeVerificationScreen.VerifyDisabled` | src/components/codeVerification.tsx:90-92 | the button is disabled exactly when the code is not six characters long; `HandleVerify` states that a press then has no effect |
| `CodeVerification.CodeVerificationScreen.HandleVerify` | src/components/codeVerification.tsx:39-50 | nothing happens exactly when the button is disabled (length not 6); otherwise go to registration or show "Invalid or expired code" |
| `CodeVerification.CodeVerificationScreen.Tick` | src/components/codeVerification.tsx:27-37 | one second decrements a positive countdown and leaves zero at zero |
| `CodeVerification.CodeVerificationScreen.HandleResendCode` | src/components/codeVerification.tsx:52-55 | the countdown restarts at 60 |
| `CodeVerification.CodeVerificationScreen.PressResend` | src/components/codeVerification.tsx:97-100 | the press is ignored while the countdown is positive and restarts it at zero |

## Left out

- The tree layout itself (`d3.hierarchy`, `d3.tree().nodeSize`) is not part of this model. Layout coordinates are input. The promise that the layout mirrors the record tree is the precondition `TreeView.Mirrors`.
- Drawing and gestures are not modelled: Svg elements, stroke colours, font sizes, `GestureDetector`, `Dimensions.get` (the screen width is a parameter). The code has no coordinate hit-testing; a tap is modelled by the index of the tapped circle.
- Network and storage are not modelled: `axios`, SecureStore and `jwtDecode`. Their results are parameters:
  - the genealogy reply;
  - the registration and verification replies;
  - the token passed to RESTORE_TOKEN and SIGN_IN.
- `GenealogyTreeScreen.FetchGenealogyData`: the reply is a parameter. In the source a constant `useDummyData = true` throws before any request, so the shipped screen always shows the example tree. The model keeps the success path too, with `None` standing for any throw before the reply is checked.
- `GenealogyTree.TransformDataToTree`: a `null` downline entry, at either level, is modelled: reading its `name` throws, the result is `None`, and the screen shows the example tree. Entries of other non-record kinds (numbers, strings) and a `downlines` field that is present but not an array are not modelled; every entry is a record or `null`.
- The genealogy screen's error view is modelled, but the source never sets `error` to anything but `null`, so it is unreachable there too.
- Timers are not modelled:
  - the session-expiry timeout and its modal in `routing.tsx`;
  - the scheduling by `setInterval`, of which only one tick is modelled (`Tick`);
  - the `Animated.timing` height of the card section in `deposit.tsx`.
- `CodeVerification.CodeVerificationScreen.Tick`: the interval only exists while the countdown is positive. A tick at zero is modelled as leaving it at zero.
- JavaScript numbers are `real`, so floating-point rounding is not modelled.
- Case mapping (`toLowerCase`, `toUpperCase`) is over ASCII letters only. The keys and payment-method ids are ASCII.
- `CodeVerification.LimitLength`: `maxLength={6}` is modelled as keeping the first six characters of the offered text. JavaScript's `code.length` and `maxLength` count UTF-16 code units, while `|code|` here counts Unicode scalar values, so a code holding characters outside the Basic Multilingual Plane is measured differently. A six-digit code is the same either way.
- The `console.log`/`console.error` calls, the `goBack` link and the deposit screen's "₱{amount || '0.00'}" total line are display-only and are not modelled.
- `RegistrationJs.FrontendMessage`: an `err.message` that is itself missing is not modelled; the message is always a string.
- These screens and files are not part of this model:
  - `home.tsx` and `home.jsx`;
  - both `emailVerification` files;
  - `login.jsx`, `profile.tsx`, `navBar.tsx` and `splashScreen.jsx`;
  - the `authContext` files and `axios` wrappers;
  - all StyleSheets.
