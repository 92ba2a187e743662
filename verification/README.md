# Classic Dash: a Dafny model

Classic Dash is a GNOME Shell extension that replaces the shell's top bar and
dash with a classic taskbar. The taskbar has:

- an applications button whose menu lists the apps by category;
- a panel of favourite-app launchers;
- a panel with one button per open window;
- a clock whose menu holds a month calendar;
- a system button.

This project models the logic the extension adds on top of the shell, one
Dafny module per source file:

| module | source | what it holds |
|---|---|---|
| `Elements` | src/elements.js | the button with an optional icon slot first and an optional label slot last, and style-class toggling |
| `Tooltip` | src/tooltip.js | the process-wide tooltip scheduler: the displayed tooltip, the pending show timer, and the timers it arms |
| `Menu` | src/menu.js | popup positioning near an anchor, the popup menu (modal grab, Escape, fullscreen, items), the window-button menu, minimise-all |
| `Buttons` | src/buttons.js | the push button's tooltip and popup-toggle protocol, with the two menu factories the extension passes to it |
| `Apps` | src/apps.js | the applications-menu tree flattening, categories, column padding, the launch choice, and the "icon:" label setting |
| `Panels` | src/panels.js | favourite buttons, window buttons (title, style, clicks), the window panel's button list, the clock button |
| `Calendar` | src/calendar.js | the 7 by 6 date grid, date equality, the month pager, and the calendar menu |
| `Extension` | extension.js | `_inject` and the enable/disable lifecycle |

`Shell` stands in for the GNOME Shell objects the extension drives: windows,
apps and the favourites list. `Common` holds `Option` and sequence removal.

Shell calls, signals and timers are modelled as follows:

- A signal the extension connects becomes a method that the model calls explicitly. Examples are a window's 'unmanaging', a menu's 'hide', and a timer firing.
- A call into the shell becomes a small method on a `Shell` object. The window methods only record what was asked.
- Positions are exact `real` numbers.
- Dates are whole days numbered consecutively, with day 0 a Monday. The calendar facts the extension reads from GLib are functions held in an `Almanac` value: year, day of year, month, day of month, week of year, the 1st of the month, adding months, and the title.

Where the design notes and the code differ, the model follows the code:

- When `m.width - width - padding` is below the padding, the popup's x is the padding. It is not the centred value.
- The window panel only ever appends. It never groups buttons by workspace or by application.
- The "unmanaging" flag that positioning checks (spelt `_unmamaging` in the code) is never set by the extension itself. It is an input of the model.

## Model

| member | source | states |
|---|---|---|
| Elements.WithClass | src/elements.js:176-183 | the toggled class is present iff `active`; every other class is kept and none is added |
| Elements.Label.StyleClassName | src/elements.js:42-48 | the label's class set is toggled as above; its text is unchanged |
| Elements.Button.constructor | src/elements.js:108-129 | a new button has neither icon nor label, and an empty box |
| Elements.Button.SetLabelText | src/elements.js:131-139 | the label shows the text; a label is created and appended at the end of the box only when there was none; the icon and the button's classes are unchanged |
| Elements.Button.DeleteLabelText | src/elements.js:141-146 | afterwards there is no label; only the label is removed from the box; a second call changes nothing |
| Elements.Button.AddLabelStyleClassName | src/elements.js:148-150 | with a label the class is added to it and its text kept; without a label nothing is written |
| Elements.Button.SetIcon | src/elements.js:152-158 | the icon shows the image; an icon is created at index 0 only when there was none; the label and classes are unchanged |
| Elements.Button.SetIconName | src/elements.js:160-167 | as SetIcon, with a themed icon of that name |
| Elements.Button.DeleteIcon | src/elements.js:169-174 | afterwards there is no icon; only the icon is removed from the box |
| Elements.Button.StyleClassName | src/elements.js:176-183 | the class is toggled on the button and, when there is one, on its label; the box, icon and label text are unchanged |
| Tooltip.Scheduler.constructor | src/tooltip.js:64-65 | no tooltip displayed, no pending show timer, no timers armed |
| Tooltip.Scheduler.HideTooltip | src/tooltip.js:83-88 | afterwards no tooltip is displayed and no show timer is pending; the pending show timer is cancelled and no other timer is; with nothing displayed or pending it changes nothing |
| Tooltip.Scheduler.ShowTooltip | src/tooltip.js:67-81 | a missing text changes nothing; otherwise any displayed tooltip is destroyed, the pending show timer is cancelled, and exactly one new 900 ms show timer is armed and recorded as pending |
| Tooltip.Scheduler.Fire | src/tooltip.js:73-80 | a show timer that fires is the pending one; it destroys the previous tooltip, displays exactly one new tooltip for its text and anchor, and arms an untracked 6000 ms hide timer; a hide timer that fires hides unconditionally, cancelling whatever show is pending |
| Menu.LocationNearAnchor | src/menu.js:45-59 | nothing is written for an unmanaging anchor; x is at least the padding (10), at most the right bound whenever that bound is at least the padding, the centred value when it fits, and exactly the padding when the bound is below it; y puts the popup's bottom edge the padding above the anchor's row |
| Menu.MenuItem.constructor | src/menu.js:69-74 | a new item is reactive and focusable with its text and action, and carries width-12 and height-2 |
| Menu.MenuItem.SetSensitive | src/menu.js:76-80 | reactive and can_focus equal the argument; `insensitive` is present iff not sensitive, on the item and on its label |
| Menu.PopupMenu.constructor | src/menu.js:103-150 | autoclose is true unless `false` is passed; a new menu is hidden, holds no grab and has no entries |
| Menu.PopupMenu.ClickedAction | src/menu.js:183-189 | a click on entry i runs an action iff the entry is a reactive item, and the action is that item's |
| Menu.PopupMenu.Show | src/menu.js:164-171 | the menu becomes visible; on the transition it is positioned near the anchor and takes a grab iff autoclose |
| Menu.PopupMenu.Hide | src/menu.js:173-181 | the menu is hidden and holds no grab afterwards; entries and position are unchanged |
| Menu.PopupMenu.CloseMenu | src/menu.js:206-208 | hides the menu and leaves it holding no grab |
| Menu.PopupMenu.KeyPressed | src/menu.js:157-162 | Escape hides the menu whatever its autoclose; any other key changes nothing |
| Menu.PopupMenu.ButtonPressed | src/menu.js:132-136 | a button press closes an autoclose menu and leaves a non-autoclose one as it was |
| Menu.PopupMenu.FullscreenChanged | src/menu.js:138-140 | a fullscreen change always closes the menu |
| Menu.PopupMenu.AddMenuItem | src/menu.js:183-189 | appends one new reactive item with that text and action after all existing entries |
| Menu.PopupMenu.AddSeparator | src/menu.js:191-200 | appends a separator after all existing entries |
| Menu.PopupMenu.AddCustomItem | src/menu.js:202-204 | appends the custom widget after all existing entries |
| Menu.PopupMenu.Destroy | src/menu.js:152-155 | marks the menu destroyed and changes nothing else |
| Menu.WinMenuViewsFacts | src/menu.js:245-266 | the window menu has 6 entries when it offers "Add to Favourites" and 4 otherwise; that item and a separator come first and only when offered; Close Window is the last item and the only one; the Maximise/Minimise items are labelled by the window's state and sensitive per its capabilities |
| Menu.WinButtonMenu.constructor | src/menu.js:240-271 | a new autoclose, hidden menu whose entries are as above, offering "Add to Favourites" iff the window has an app that is not a favourite |
| Menu.WinButtonMenu.SetUnmanageable | src/menu.js:273-275 | the menu forgets its window |
| Menu.WinButtonMenu.ToggleMinimise | src/menu.js:277-287 | no-op once the window is gone; a minimised window is unminimised and activated; any other window is minimised and not activated |
| Menu.WinButtonMenu.ToggleMaximise | src/menu.js:289-299 | flips maximised and activates the window once; no-op once the window is gone |
| Menu.WinButtonMenu.CloseWindow | src/menu.js:301-306 | asks the window to close and changes nothing else; no-op once the window is gone |
| Menu.WinButtonMenu.AddToFavourites | src/menu.js:308-316 | the window's app becomes a favourite; without a window or an app the favourites are unchanged |
| Menu.WinButtonMenu.ClickItem | src/menu.js:277-316 | a click on an item that runs an action (activated through src/menu.js:183-189) leaves the menu closed, and runs exactly that item's action: minimise toggles the window's minimised state (activating it when it was minimised), maximise toggles its maximised state and activates it, close deletes it, add-to-favourites puts the app's id among the favourites and keeps the others; no other action touches the window or the favourites; a click on an entry without an action leaves the menu open and its grab as it was |
| Menu.MinimiseAll | src/menu.js:339-347 | exactly the windows not skipped by the taskbar end up minimised; skip-taskbar windows keep their state; nothing else about any window, its title included, changes |
| Buttons.MenuFactory.constructor | src/buttons.js:63-74 | a factory starts with no kept menu |
| Buttons.MenuFactory.Create | src/apps.js:306-312 | a caching factory returns the same menu on every call until it is destroyed; otherwise every call returns a new hidden menu with no hide handlers |
| Buttons.MenuFactory.Release | src/apps.js:314-316 | a kept menu is only hidden; any other menu is destroyed |
| Buttons.MenuFactory.DestroyCache | src/apps.js:318-321 | the kept menu, if any, is destroyed and the field becomes null; a second call does nothing more |
| Buttons.PushButton.constructor | src/buttons.js:36-44 | a new button has no tooltip text, no menu set-up and no menu |
| Buttons.PushButton.SetTooltipText | src/buttons.js:50-61 | the text is always stored; the hover handlers are connected once, however many calls |
| Buttons.PushButton.SetMenu | src/buttons.js:63-74 | the first call installs the factory and the mouse buttons; later calls change nothing |
| Buttons.PushButton.ShowTooltip | src/buttons.js:76-81 | no tooltip is requested while this button's menu is visible; otherwise the scheduler arms a show timer for the button's text |
| Buttons.PushButton.HideTooltip | src/buttons.js:83-85 | afterwards no tooltip is displayed or pending |
| Buttons.PushButton.Destroy | src/buttons.js:43-48 | the button is destroyed and, through `_hide_tooltip`, no tooltip is displayed or pending; the pending show timer is cancelled; the button's text, menu and connections are kept |
| Buttons.PushButton.OnMenuHide | src/buttons.js:98-105 | with a menu set, the destroy callback runs once and the menu field becomes null; with none set, nothing runs |
| Buttons.PushButton.DeliverHide | src/buttons.js:98-105 | however many hide handlers a reused menu has accumulated, the destroy callback runs exactly once and the menu field ends null |
| Buttons.PushButton.Toggle | src/buttons.js:94-114 | an accepted press with the tooltip hidden: a visible kept menu is hidden and released once, a hidden one is shown again, still kept and grabbing iff it is autoclose, a non-caching factory opens a fresh menu, and the first press on a caching factory with no kept menu builds a fresh menu, keeps it in the factory and shows it, grabbing iff the factory is autoclose |
| Buttons.PushButton.Pressed | src/buttons.js:87-115 | every press hides the tooltip; a press before set-up or with an unlisted button does nothing else (the button, its factory, its kept menu and its current menu are untouched); no press destroys the button; an accepted press hides a visible kept menu (releasing it once) and shows a hidden one again (still kept, grabbing iff it is autoclose), always opens a fresh menu for a non-caching factory, and on the first accepted press of a caching factory builds, keeps and shows a fresh menu |
| Apps.FlattenListed | src/apps.js:237-259 | an app is in the flattened list iff it is a shown entry reachable through displayed directories |
| Apps.CollectListed | src/apps.js:237-259 | the same, for one tree item |
| Apps.FlattenShown | src/apps.js:237-259 | every app in the flattened list is one that should be shown |
| Apps.LoadCategory | src/apps.js:237-259 | the push loop with recursion yields exactly the depth-first flattening |
| Apps.CategoriesOf | src/apps.js:214-235 | Favourites is the first category; the categories are distinct; every category other than Favourites has at least one app |
| Apps.CategoriesKeys | src/apps.js:214-235 | a category exists iff it is Favourites or a displayed top-level directory with at least one app |
| Apps.FavouritesKept | src/apps.js:214-235 | the Favourites category holds exactly the favourites, in order, when no directory is named Favourites |
| Apps.GetCategories | src/apps.js:214-235 | the loop computes exactly the categories above |
| Apps.ContentRows | src/apps.js:142-157 | a pane lists its category's apps in map order, then "Show All Applications" under Favourites |
| Apps.TallestPaneBound | src/apps.js:141-162 | the running `max_height` is at least the size of every pane built so far |
| Apps.TallestPaneAttained | src/apps.js:141-162 | the running `max_height` is the size of one of the panes built so far |
| Apps.SectionsFillHeight | src/apps.js:166-172 | the sections column has exactly `max_height` cells, dummies first and then the categories in order |
| Apps.PaneFits | src/apps.js:173-181 | every pane has at most `max_height` cells; its real cells keep their order after the prepended dummies; a pane aligns with its category when it fits |
| Apps.OnlyFavouritesShown | src/apps.js:141-142 | after an update only the Favourites pane is visible |
| Apps.AtMostOneShown | src/apps.js:141-142 | after an update no two panes are visible at once |
| Apps.UnpaddedPanesAt | src/apps.js:141-159 | pane k of the loop holds the k-th category's rows and is shown iff that category is Favourites |
| Apps.Unpadded | src/apps.js:139-164 | the loop builds one category row and one pane per category, in map order, and `max_height` is the larger of the tallest pane and the number of categories |
| Apps.PadColumn | src/apps.js:168-170 | `extra` dummy rows end up above the category rows |
| Apps.PadPane | src/apps.js:174-180 | a pane gets `min(extra + i, max_height - size)` dummy rows above its own rows |
| Apps.PadPanes | src/apps.js:174-181 | every pane is padded as above, the i-th with its own index |
| Apps.ApplicationsMenu.constructor | src/apps.js:112-128 | a new menu is laid out from the favourites and the tree as `_update` lays it out |
| Apps.ApplicationsMenu.Update | src/apps.js:130-182 | the menu is closed and rebuilt: sections and panes equal the laid-out layout of the current categories |
| Apps.ApplicationsMenu.HidePanes | src/apps.js:189-196 | every pane except `shown` is hidden and `shown` is left as it was; contents are untouched |
| Apps.ApplicationsMenu.ShowCategory | src/apps.js:45-47 | exactly pane i is visible afterwards |
| Apps.LaunchOf | src/apps.js:78-84 | a new window is opened iff the app is running and can open one; otherwise the app is activated |
| Apps.IconNameOf | src/apps.js:323-328 | a value names an icon iff it starts with "icon:", and the value is "icon:" followed by that name |
| Apps.IconNameRoundTrip | src/apps.js:323-328 | "icon:" + name reads back as name |
| Apps.SetLabelTextOrIconAsWritten | src/apps.js:323-334 | as written: "icon:NAME" shows that icon and no label; any other value sets the label text and stops at the undefined bold call, keeping the icon |
| Apps.IconSurvivesTextSetting | src/apps.js:331 | a button with an icon, set to the text "Applications", shows the text beside the old icon |
| Apps.SetLabelTextOrIcon | src/apps.js:323-334 | "icon:NAME" shows that icon and no label; any other value shows that text in bold and no icon |
| Apps.AppButton.constructor | src/apps.js:282-304 | the button shows the setting's label (in bold) or icon; its menu is cached, autoclose, and opened by buttons 1 and 3 |
| Apps.AppButton.TextChanged | src/apps.js:288-292 | a change of the setting shows the new label or icon as above |
| Apps.AppButton.DestroyMenu | src/apps.js:318-321 | the kept applications menu is destroyed and forgotten |
| Panels.FavButton.constructor | src/panels.js:40-51 | the tooltip is the app's name; a fresh menu per press of button 3 |
| Panels.FavButton.Launch | src/panels.js:53-59 | opens a new window iff the app is running and can open one; otherwise activates it |
| Panels.FavPanel.Update | src/panels.js:84-91 | all old buttons are destroyed (each running `_hide_tooltip`, src/buttons.js:46-48), so when there were any no tooltip is displayed or pending afterwards (and with none the tooltip state is unchanged); afterwards there is exactly one new, undestroyed button per favourite, in the favourites' order |
| Panels.FavButton.Destroy | src/buttons.js:43-48 | destroying a favourite's button hides the tooltip and cancels the pending show timer |
| Panels.WindowTitle | src/panels.js:131-137 | the title when present and non-empty, otherwise "..."; never empty |
| Panels.Styled | src/panels.js:175-182 | `bg` iff minimised, `fg` iff focused, `normal` iff neither; focus clears `attention`, which is otherwise kept; other classes unchanged |
| Panels.ClickOf | src/panels.js:147-156 | only button 1 has an effect: it minimises the focused window and activates any other |
| Panels.WinButton.constructor | src/panels.js:101-127 | a new window button shows the window's title as label and tooltip, has an icon iff the window has an app, is styled by the window's state, and opens a fresh menu on button 3 |
| Panels.WinButton.UpdateStyle | src/panels.js:175-182 | the button's and label's classes follow the style rules above |
| Panels.WinButton.UpdateTitle | src/panels.js:162-166 | the label and the tooltip both become the window title |
| Panels.WinButton.Clicked | src/panels.js:147-156 | a left click minimises the focused window or activates another; other buttons do nothing |
| Panels.Added | src/panels.js:219-228 | a skip-taskbar window is never added; a window already present leaves the list unchanged; otherwise it is appended; distinctness is kept |
| Panels.AddedAll | src/panels.js:210-217 | adding windows one by one keeps the buttons distinct and free of skip-taskbar windows |
| Panels.AddedAllHolds | src/panels.js:210-217 | a window ends up in the list iff it was there or is a listed window not skipped by the taskbar |
| Panels.AddedAllSorted | src/panels.js:210-217 | initial population from windows sorted by stable sequence gives buttons in that order |
| Panels.Insert | src/panels.js:210-212 | inserting a window adds exactly that window: the result is the old list's multiset plus the window |
| Panels.InsertSorted | src/panels.js:210-212 | inserting a window into a list sorted by stable sequence keeps it sorted |
| Panels.SortByStable | src/panels.js:210-212 | the sort is a permutation of the windows, sorted by stable sequence |
| Panels.WinPanel.constructor | src/panels.js:200-208 | a new panel holds one button per non-skip-taskbar window, in stable-sequence order |
| Panels.WinPanel.Update | src/panels.js:210-217 | the windows are added in stable-sequence order after the existing buttons |
| Panels.WinPanel.Find | src/panels.js:223-226 | finds the button of a window iff the window has one |
| Panels.WinPanel.AddWindow | src/panels.js:219-228 | as Added; existing buttons keep their positions and a new button goes at the end |
| Panels.WinPanel.Attention | src/panels.js:230-239 | nothing for a missing or focused window; otherwise only the matching button gains `attention`, on it and its label; every caption's text and every other button's classes are unchanged |
| Panels.WithoutDistinct | src/panels.js:158-160 | in a list without repeats, removing a window is removing its one position, and the rest stays without repeats |
| Panels.WinPanel.Unmanaging | src/panels.js:158-160 | exactly that window's button is destroyed and removed, which (src/buttons.js:46-48) hides the tooltip and cancels the pending timer; the others are the old buttons, in their order, none destroyed by this; an unknown window changes nothing |
| Panels.RemoveButton | src/panels.js:158-160 | removing one button keeps the panel's windows distinct and leaves exactly the other windows, in order, each with a button other than the removed one |
| Panels.CalButton.constructor | src/panels.js:249-270 | the clock's menu is cached, not autoclose, and opened by buttons 1 and 3 |
| Panels.CalButton.DestroyMenu | src/panels.js:298-301 | the kept calendar menu is destroyed and forgotten |
| Calendar.DayOfWeek | src/calendar.js:184 | the day of the week is between 1 (Monday) and 7 |
| Calendar.EqualDates | src/calendar.js:220-226 | false when either date is missing; true for two equal dates |
| Calendar.EqualDatesSymmetric | src/calendar.js:220-226 | date equality does not depend on argument order |
| Calendar.EqualDatesSameDay | src/calendar.js:220-226 | for a calendar whose year and day of year name one day, two dates are equal iff they are the same day |
| Calendar.StartDateFacts | src/calendar.js:183-187 | the grid starts on a Monday; the 1st of the month lies 1 to 7 days after the start; the selected day lies within the 42 cells |
| Calendar.GridShowsEachDayOnce | src/calendar.js:194-199 | the 7 x 6 grid shows exactly the 42 days from its start date, each in exactly one cell |
| Calendar.ColumnWeekday | src/calendar.js:194-202 | column x shows weekday x + 1, so a cell is special iff it is in the last two columns |
| Calendar.SelectedShownOnce | src/calendar.js:200 | exactly one cell is framed, the one at the selected day's offset |
| Calendar.Decimal | src/calendar.js:191 | a number's decimal text is non-empty digits, one digit below 10 and at most two below 100 |
| Calendar.DecimalRoundTrip | src/calendar.js:191 | reading back a number's decimal text gives the number |
| Calendar.PadStart2 | src/calendar.js:191 | pads with zeros in front to length 2, keeping the text at the end |
| Calendar.WeekLabel | src/calendar.js:191 | a week label is two digits that read back as the week number |
| Calendar.DayCellFacts | src/calendar.js:198-202 | a day cell shows its day of month; it is framed iff it is the selected date, bg iff in another month, special iff a Saturday or Sunday; other classes kept |
| Calendar.Calendar.constructor | src/calendar.js:151-177 | a new calendar selects today and shows today's month from the initial header and cell texts |
| Calendar.Calendar.UpdateWeeks | src/calendar.js:188-193 | every week header shows its zero-padded week number and is selected iff it is the selected week |
| Calendar.Calendar.UpdateColumn | src/calendar.js:196-203 | every cell of column x is replaced by the given update of its row index and old cell, and no other column changes |
| Calendar.Calendar.UpdateForDate | src/calendar.js:179-205 | the title, the week headers, the weekday headers and all 42 cells show the selected month; the dates are unchanged |
| Calendar.Calendar.Update | src/calendar.js:207-218 | nothing changes when today equals the stored current date; otherwise the current and selected dates become today and the grid shows today's month |
| Calendar.Calendar.Page | src/calendar.js:102-113 | the selection moves by the given number of months and the grid shows its month |
| Calendar.Calendar.Today | src/calendar.js:106-109 | today is selected and shown; the current date is left as it was |
| Calendar.CalendarMenu.constructor | src/calendar.js:236-247 | the calendar menu is not autoclose, starts hidden, and holds the calendar as its only entry |
| Calendar.CalendarMenu.Refresh | src/calendar.js:248-252 | while the calendar is visible and the date has changed, it moves to today and shows today's month; otherwise the calendar, its cells included, is unchanged; its visibility is kept |
| Calendar.CalendarMenu.Showing | src/calendar.js:240-242 | showing the menu moves the calendar to today and shows today's month when the date has changed, and otherwise leaves it unchanged |
| Calendar.CalendarMenu.OverviewShowing | src/calendar.js:254-256 | the overview showing closes the menu |
| Extension.Injected | extension.js:29-36 | the result is the old value iff the property holds a function, and then the property holds the new value; otherwise the target is unchanged and the result is null; other properties are never touched |
| Extension.InjectUndone | extension.js:29-36 | injecting back the returned function restores the target exactly |
| Extension.InjectTwiceLosesOriginal | extension.js:47 | after two injections the second returns the first wrapper, and undoing with it does not restore the original |
| Extension.Inject | extension.js:29-36 | the target and the result are as Injected says |
| Extension.ClassicDash.constructor | extension.js:40-43 | no dash and no replaced function |
| Extension.ClassicDash.Enable | extension.js:45-53 | a new wrapper is injected and `_replaced` becomes what `_inject` returned; a new dash is built |
| Extension.ClassicDash.Disable | extension.js:55-65 | the replaced function, if any, is injected back and forgotten; the dash, if any, is destroyed and forgotten; the top bar is shown in every case |
| Extension.ClassicDash.RunStartupAnimation | extension.js:47-51 | the installed wrapper hides the top bar |
| Extension.EnableThenDisable | extension.js:45-65 | enable followed by disable leaves the overview as it was, with no dash and the top bar shown |
| Extension.DisableTwice | extension.js:55-65 | two disables restore and destroy exactly what the first one does, so the second restores nothing and destroys nothing; afterwards there is no dash or replaced function and the top bar is shown |
| Extension.EnableTwiceThenDisable | extension.js:47 | enabling twice before disabling loses the overview's own animation: the first wrapper stays installed |

## Left out

- The shell itself is modelled only by what the extension asks of it. This covers modal grabs, window operations, the favourites store, the GMenu tree, GLib dates, the wall clock and the top bar's geometry. `Shell.Window` records minimise, maximise, activate and delete requests, with its three capabilities given when it is built, and the `Almanac` supplies the date facts.
- Real time: the 900 ms and 6000 ms delays are kept as constants on the timers, and firings are explicit `Fire` events.
- Floating point: positions are exact reals, with no rounding.
- Signal connection bookkeeping beyond what the properties need: the disconnection done by `connectObject` owners, and the `notify::allocation` handler with the icon geometry it sets (src/panels.js:168-173).
- The `SysButtonMenu` constructor and its shell callbacks (power off, restart, logout, settings, overview; src/menu.js:326-377). Only minimise-all is modelled.
- `Menu.ActionMenuItem`, `set_action_button` and `AppMenuItem`'s favourite button: they are not defined in src/menu.js, so they are not part of this model. `FavButtonMenu` and `ImageMenuItem` are not modelled either.
- Panels.WinButton.constructor: the button's classes, caption and icon are kept in its own fields rather than in an `Elements.Button`, so the box order of its icon and label is not restated there.
- Panels.CalButton.constructor: follows the intended behaviour of the bold label rather than the code as written (see Findings). As written, `set_label_text_bold()` at src/panels.js:252 throws on every construction, before the tooltip and the menu are set (src/panels.js:260-261). The clock label, the date setting and the tooltip refresh on each tick are not modelled. The tooltip text is a parameter.
- Apps.AppButton.constructor: follows Apps.SetLabelTextOrIcon, the corrected label behaviour. As written, for a setting that is not "icon:…" the constructor throws at src/apps.js:294, before `set_menu` (src/apps.js:295), so the button gets no menu.
- Apps.AppButton.TextChanged: follows Apps.SetLabelTextOrIcon. As written, a change from an icon to a text setting keeps the old icon beside the new text (Apps.IconSurvivesTextSetting).
- Apps.ApplicationsMenu.Update: the "Show All Applications" button's action and the category items' hover wiring are not modelled. Only the cells and visibility are.
- Calendar.Calendar.constructor: the two separate `new_now_local()` calls are one `now` parameter.
- dash.js, src/topbar.js and prefs.js are not part of this model. The dash is an object that can be destroyed, and the top bar is a shown/hidden flag.

## Findings

| source | as written | input that shows it | evidently intended | confidence | as-written member | corrected member |
|---|---|---|---|---|---|---|
| src/apps.js:331 | the text branch of `_set_label_text_or_icon` calls `this.set_label_text_bold()`, which no class defines. `Elements.Button` and `PushButton` do not, and `St.Button` has no such method. The call throws after the label text is set, so `delete_icon()` never runs. Through it the applications button's constructor throws before `set_menu` (src/apps.js:294-295) when the setting is a text, and a change from an icon to a text keeps the icon. src/panels.js:252 makes the same call in the clock button's constructor, which then throws every time before its tooltip and menu are set (src/panels.js:260-261). | a button showing an icon whose setting changes to "Applications" | the label shows the text in bold (as `TodayButton` does with its label's `bold` class, src/calendar.js:72) and the icon is removed | medium, not executed | Apps.SetLabelTextOrIconAsWritten, Apps.IconSurvivesTextSetting | Apps.SetLabelTextOrIcon |
