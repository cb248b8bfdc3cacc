# CalLog domain core in Dafny

CalLog is a diet tracker written as a React application. Under its pages sits a small
domain core, and the Dafny modules here model that core and prove properties of it:

- **Today page and its meal ledger** (`TodayDiet`, `TodayDietAddOnly`, `MealRecords`, `GoalStore`).
  - The page is a class. Its fields are the meal list, the id counter `nextId`, the add and edit forms, the id being edited, the calorie goal, and the key-value store that keeps `goalCalories`.
  - Its methods are the page's handlers: add, delete, start, change, cancel and save an edit, set the goal, and recommend a goal.
  - A ghost set of handed-out ids carries the invariant that ids are distinct and never reused.
  - The earlier add-only page is a second, smaller class.
- **Goal recommendation** (`GoalRecommendation`).
  - The Mifflin–St Jeor resting energy, an activity factor, and a ±500 kcal step toward the target weight, then `Math.round`.
  - It is computed over exact reals.
- **Statistics shared by the dashboard and the calendars** (`Aggregates`, `CalorieManagement`).
  - The rounded mean and the ±10% achieved band.
  - The three-way rate status and the signed difference text.
  - The macro targets, and the dashboard's stat cards and goal card, which is a class.
- **Calendar shaping** (`WeeklyCalendar`, `MonthlyCalendar`).
  - The Sunday-first week window and moving it by a week.
  - Week rows and their statistics: average, achieved days, status, difference and achievement rate.
  - The 30-day month data, the month average, the padded calendar grid, the chart's down-sampling and the achieved test.
- **Nutrition lookup** (`Edamam`).
  - The configuration check and the food-name check, in their order.
  - The request built for the trimmed name.
  - Extraction of the four rounded values from an abstract response.
  - The HTTP round trip is a function parameter.

JavaScript semantics are written out in `JsValues`:

- A number is `NaN` or an integer. The band and rate tests work on `Float`, which adds the two infinities, with every comparison false on NaN.
- `x || 0` maps NaN and 0 to 0.
- `Math.round` is `Floor(x + 1/2)`.
- `trim` uses the ECMAScript white-space set.
- `parseInt` is radix 10.
- `Number(text)` is modelled for integer literals.
- `String(n)` is decimal text.

Days are integers counted from Thursday 1 January 1970. The date library's week
functions are assumed to return the seven days starting with the Sunday on or before the
date, and `WeeklyCalendar.WeekDates` states that behaviour. The random calorie values of
the pages are inputs.

## Model

| member | source | states |
|---|---|---|
| JsValues.Number.OrZero | src/App.js:179 | `x \|\| 0` is 0 exactly for NaN and 0, and every other number is kept |
| JsValues.Minus | src/pages/WeeklyCalendarPage.js:245 | a difference is NaN exactly when either side is NaN; otherwise adding the subtrahend back gives the first operand |
| JsValues.Divide | src/pages/WeeklyCalendarPage.js:241 | a quotient is NaN exactly for a NaN divisor or 0 / 0, ±Infinity exactly for a non-zero number over 0, and otherwise times the divisor gives the dividend |
| JsValues.Scale | src/pages/WeeklyCalendarPage.js:82 | multiplying by a positive constant keeps NaN and the infinities, and a finite product divided by the constant gives the operand |
| JsValues.AtMost | src/pages/WeeklyCalendarPage.js:82 | definition; its properties are stated by JsValues.NaNComparesFalse and JsValues.AtMostTotal |
| JsValues.Below | src/pages/WeeklyCalendarPage.js:244 | definition; its properties are stated by JsValues.NaNComparesFalse and JsValues.AtMostTotal |
| JsValues.NaNComparesFalse | src/pages/WeeklyCalendarPage.js:82 | every `<=` and `<` with NaN on either side is false |
| JsValues.AtMostTotal | src/pages/WeeklyCalendarPage.js:243-244 | without NaN, `<=` is reflexive, total, antisymmetric and transitive, and `<` is its strict part |
| JsValues.Round | src/App.js:237 | `Math.round` gives an integer within half a unit of its argument, a half rounded up |
| JsValues.RoundUnique | src/App.js:237 | the nearest-integer property determines `Math.round` |
| JsValues.RoundShift | src/App.js:229-232 | rounding commutes with adding a whole number, so a ±500 step moves the rounded value by exactly 500 |
| JsValues.RoundMonotone | src/pages/WeeklyCalendarPage.js:217 | rounding never reverses an order |
| JsValues.TrimStart | src/api/edamam.js:29 | what is left does not start with white space, and only white space was dropped |
| JsValues.TrimStartSuffix | src/api/edamam.js:29 | what leading trimming keeps is a suffix of the input |
| JsValues.TrimEnd | src/api/edamam.js:29 | what is left does not end with white space, and only white space was dropped |
| JsValues.TrimEndPrefix | src/api/edamam.js:29 | what trailing trimming keeps is a prefix of the input |
| JsValues.Trim | src/api/edamam.js:29 | the trimmed text neither starts nor ends with white space, and it is empty exactly when the input is all white space |
| JsValues.TrimSlice | src/api/edamam.js:42 | the trimmed text is one contiguous slice of the input |
| JsValues.DigitPrefix | src/pages/CalorieManagement.js:66 | the digit run that `parseInt` reads is all digits and maximal |
| JsValues.ParseInt | src/pages/CalorieManagement.js:66 | definition; its properties are stated by JsValues.ParseIntIntToString and Aggregates.SignedTextParses |
| JsValues.NumberOf | src/App.js:186 | definition; its properties are stated by JsValues.NumberOfIntToString, JsValues.NumberOfBlank and JsValues.NumberOfFraction |
| JsValues.NumberOfBlank | src/App.js:151-153 | blank text, the empty string included, converts to 0 |
| JsValues.NumberOfFraction | src/App.js:186 | the model reads "12.5" as NaN: fractional text is outside it |
| JsValues.NatToString | src/App.js:188 | the decimal text of a natural number is non-empty and all digits |
| JsValues.IntToString | src/App.js:188 | definition; its properties are stated by JsValues.IntToStringShape, JsValues.NumberOfIntToString and JsValues.ParseIntIntToString |
| JsValues.NatToStringValue | src/App.js:188 | the decimal text of a natural number has that value |
| JsValues.IntToStringShape | src/App.js:188 | the text `String(n)` gives is non-empty, has no white space at either end and ends in a digit |
| JsValues.NumberOfIntToString | src/App.js:166 | `Number(String(n)) == n`: a stored goal reads back as itself |
| JsValues.ParseIntIntToString | src/pages/CalorieManagement.js:66 | `parseInt(String(n), 10) == n` |
| GoalStore.WriteGoal | src/App.js:188 | storing the goal sets `goalCalories` and leaves every other entry alone |
| GoalStore.ReadGoal | src/App.js:164-167 | definition; its properties are stated by GoalStore.ReadAfterWrite |
| GoalStore.ReadAfterWrite | src/App.js:164-167 | a written goal reads back as that number, whatever the reading page's default |
| MealRecords.ParseOrZero | src/App.js:255-256 | `parseInt(text \|\| 0)`: blank text gives 0, other text is parsed |
| MealRecords.NewRecord | src/App.js:251-257 | definition; its properties are stated by TodayDiet.TodayDietPage.AddMeal and TodayDietAddOnly.FirstAddGetsIdFour |
| MealRecords.InitialIdsDistinct | src/App.js:27-31 | the seed meals have distinct ids 1 to 3, all below the first counter value 4 |
| MealRecords.AppendFresh | src/App.js:252 | appending under the counter's id and bumping the counter keeps ids distinct, handed out and below the counter; the id was never used before |
| MealRecords.EditWith | src/App.js:139-142 | changing an edit-form field never changes the id the form belongs to |
| MealRecords.Coerce | src/App.js:151-153 | `Number(x)`: a number copied from the meal stays itself, and a field cleared to nothing or to white space saves 0 |
| MealRecords.SavedRecord | src/App.js:149-154 | definition; its properties are stated by MealRecords.SaveUntouchedCopy and MealRecords.SaveTypedCalories |
| MealRecords.SaveUntouchedCopy | src/App.js:145-157 | saving an edit in which nothing was typed gives back the original meal |
| MealRecords.SaveTypedCalories | src/App.js:145-157 | typing an integer into the calorie input and saving stores exactly that integer and changes nothing else |
| MealRecords.RemoveById | src/App.js:128-130 | deleting never lengthens the list |
| MealRecords.RemoveMembers | src/App.js:128-130 | after deleting, a meal is in the list exactly when it was there before and has another id |
| MealRecords.RemoveConcat | src/App.js:128-130 | deleting from a concatenation deletes from each part |
| MealRecords.RemoveAbsent | src/App.js:128-130 | deleting an id no meal carries leaves the list unchanged |
| MealRecords.RemovePresent | src/App.js:128-130 | with distinct ids, deleting the id at position k removes exactly that meal and keeps the rest in order |
| MealRecords.RemoveKeepsDistinct | src/App.js:128-130 | deleting keeps the ids distinct |
| MealRecords.RemoveKeepsLedger | src/App.js:128-130 | deleting keeps the ledger invariant |
| MealRecords.ReplaceById | src/App.js:146-157 | saving an edit keeps the list's length |
| MealRecords.ReplaceKeepsIds | src/App.js:146-157 | the saved record keeps the edited id, so every position keeps its id, ids stay distinct, and at most one meal is replaced |
| MealRecords.ReplaceNothing | src/App.js:146-148 | with no edit in progress (`editingId` null), saving changes nothing |
| MealRecords.TotalCalories | src/App.js:178-180 | definition; its properties are stated by MealRecords.TotalConcat, TotalAppend, TotalSplit and TotalRemove |
| MealRecords.TotalConcat | src/App.js:178-180 | the total of a concatenation is the sum of the totals |
| MealRecords.TotalAppend | src/App.js:178-180 | appending a meal raises the total by its calories, 0 when NaN |
| MealRecords.TotalSplit | src/App.js:178-180 | the total of a list split around one meal |
| MealRecords.TotalRemove | src/App.js:178-180 | deleting one meal lowers the total by its calories, 0 when NaN |
| MealRecords.BalanceOf | src/App.js:289-291 | the summary shows the remaining amount when the total is within the goal, otherwise the non-negative excess, and NaN for a NaN goal |
| TodayDiet.TodayDietPage.constructor | src/App.js:161-167 | mounting gives the seed meals and counter 4, and reads the goal from the store, 1800 when it is absent or empty |
| TodayDiet.TodayDietPage.ChangeDraft | src/App.js:242-245 | one add-form field takes the input's text |
| TodayDiet.TodayDietPage.AddMeal | src/App.js:247-261 | with a non-empty name and calorie text, appends one record under the old counter value, never handed out before; bumps the counter, clears the form and raises the total by the record's calories; otherwise changes nothing |
| TodayDiet.TodayDietPage.Delete | src/App.js:128-130 | removes exactly the meals with that id and keeps the rest in order; a present id removes one meal and lowers the total by its calories; an absent id changes nothing |
| TodayDiet.TodayDietPage.EditStart | src/App.js:133-136 | the meal becomes the one being edited, and the edit form is its copy |
| TodayDiet.TodayDietPage.ChangeEdit | src/App.js:139-142 | one edit-form field takes the input's text |
| TodayDiet.TodayDietPage.CancelEdit | src/App.js:436 | the cancel button ends the edit |
| TodayDiet.TodayDietPage.EditSave | src/App.js:145-159 | only the meal with the edited id is replaced, by the form with its numbers coerced; length, order and ids are kept, and `editingId` becomes null |
| TodayDiet.TodayDietPage.SetGoal | src/App.js:185-189 | the goal becomes `Number(v) \|\| 0` and is written to the store |
| TodayDiet.TodayDietPage.RecommendGoal | src/App.js:192-240 | accepted exactly when weight, height and age are non-zero; then the goal becomes the recommendation and is stored, otherwise goal and store are unchanged |
| TodayDiet.TodayDietPage.Summary | src/App.js:182 | "remaining" exactly when the total is within the goal, showing the absolute difference of goal and total |
| TodayDietAddOnly.AddOnlyDietPage.constructor | src/App.jsx:120-122 | mounting gives the seed meals and counter 4 |
| TodayDietAddOnly.AddOnlyDietPage.ChangeDraft | src/App.jsx:124-127 | one form field takes the input's text |
| TodayDietAddOnly.AddOnlyDietPage.AddMeal | src/App.jsx:129-140 | the list only grows; with non-empty name and calorie text, one record is appended under the old counter value with blank carbs and sugar stored as 0, the counter is bumped and the form cleared; otherwise nothing changes |
| TodayDietAddOnly.FirstAddGetsIdFour | src/App.jsx:129-140 | on a fresh page, a first add with a name and calories appends meal 4 with those, 0 carbs and 0 sugar, and moves the counter to 5; otherwise nothing changes |
| GoalRecommendation.RestingEnergy | src/App.js:206-213 | definition; its properties are stated by GoalRecommendation.WorkedExample and GoalRecommendation.Recommend |
| GoalRecommendation.ActivityFactor | src/App.js:216-219 | definition; its properties are stated by GoalRecommendation.MoreActivityNeverLower and GoalRecommendation.OtherActivityIsMedium |
| GoalRecommendation.TargetAdjustment | src/App.js:224-234 | definition; its properties are stated by GoalRecommendation.TargetShift |
| GoalRecommendation.DailyNeed | src/App.js:206-234 | definition; its properties are stated by GoalRecommendation.Recommend, GoalRecommendation.TargetShift and GoalRecommendation.WorkedExample |
| GoalRecommendation.Recommend | src/App.js:192-240 | rejected exactly when weight, height or age is 0; otherwise the integer nearest the resting energy times the activity factor plus the target-weight step |
| GoalRecommendation.WorkedExample | src/App.js:204-237 | 70 kg, 170 cm, 30 years, female, medium activity gives 2250; toward 60 kg it gives 1750 and toward 80 kg 2750 |
| GoalRecommendation.TargetShift | src/App.js:223-234 | a target weight lowers the recommendation by exactly 500 when below the weight, raises it by 500 when above, and leaves it unchanged when equal |
| GoalRecommendation.MoreActivityNeverLower | src/App.js:215-221 | with non-negative resting energy, low ≤ medium ≤ high |
| GoalRecommendation.OtherActivityIsMedium | src/App.js:217-219 | any activity other than "low" and "high" is treated as "medium" |
| Aggregates.RoundedMean | src/pages/CalorieManagement.js:52 | NaN exactly for an empty sequence, otherwise the integer nearest the mean |
| Aggregates.Sum | src/pages/CalorieManagement.js:52 | definition; its properties are stated by Aggregates.SumConcat, Aggregates.SumBounds and Aggregates.RoundedMean |
| Aggregates.SumConcat | src/pages/CalorieManagement.js:52 | the sum of a concatenation is the sum of the sums |
| Aggregates.SumBounds | src/pages/WeeklyCalendarPage.js:76-78 | values between lo and hi sum to between n·lo and n·hi |
| Aggregates.MeanBetween | src/pages/WeeklyCalendarPage.js:76-78 | the rounded mean of values between lo and hi lies between them |
| Aggregates.MeanOfConstant | src/pages/CalorieManagement.js:52 | the rounded mean of a constant sequence is that constant |
| Aggregates.WithinBand | src/pages/WeeklyCalendarPage.js:82 | definition; its properties are stated by Aggregates.WithinBandInt |
| Aggregates.WithinBandInt | src/pages/WeeklyCalendarPage.js:81-83 | the band `0.9g ≤ c ≤ 1.1g` is `10c ≥ 9g ∧ 10c ≤ 11g`, it is empty for a negative goal, and empty for a NaN goal |
| Aggregates.CountWithinBand | src/pages/CalorieManagement.js:303 | the achieved-day count is at most the number of days; it is all of them exactly when every day is in the band, and 0 exactly when none is |
| Aggregates.NaNGoalCountsNothing | src/pages/WeeklyCalendarPage.js:81-83 | a NaN goal achieves no day |
| Aggregates.RateStatus | src/pages/WeeklyCalendarPage.js:240-244 | definition; its properties are stated by Aggregates.RateMatchesBand, Aggregates.ZeroGoalStatus, Aggregates.NaNGoalStatus and Aggregates.StatusesPartition |
| Aggregates.RateAchieved | src/pages/MonthlyCalendarPage.js:178-180 | definition; its properties are stated by Aggregates.RateMatchesBand and MonthlyCalendar.AchievedRange |
| Aggregates.RateMatchesBand | src/pages/WeeklyCalendarPage.js:241-244 | for a positive goal, "success" is the band test, "under" is below 90% and "over" is above 110% |
| Aggregates.ZeroGoalStatus | src/pages/WeeklyCalendarPage.js:241-244 | with a goal of 0 a row is "under" for negative calories and "over" otherwise, never "success" |
| Aggregates.NaNGoalStatus | src/pages/WeeklyCalendarPage.js:241-244 | with a NaN goal every row is "over" |
| Aggregates.ZeroGoalDisagreement | src/pages/WeeklyCalendarPage.js:81-83 | with a goal of 0, 0 kcal is in the band but the rate test fails |
| Aggregates.CountStatus | src/pages/WeeklyCalendarPage.js:240-244 | a status count is at most the number of rows |
| Aggregates.SuccessIsBand | src/pages/WeeklyCalendarPage.js:241-243 | for a positive or NaN goal a day is "success" exactly when it is in the band |
| Aggregates.SuccessCountIsBandCount | src/pages/WeeklyCalendarPage.js:81-83 | for a positive or NaN goal, the "success" rows are as many as the achieved days |
| Aggregates.StatusesPartition | src/pages/WeeklyCalendarPage.js:242-244 | every row gets exactly one of the three statuses |
| Aggregates.CaloriesOf | src/pages/MonthlyCalendarPage.js:39 | definition; its properties are stated by WeeklyCalendar.RowsCalories and MonthlyCalendar.MonthAverageIsMean |
| Aggregates.SignedText | src/pages/CalorieManagement.js:95 | the signed difference starts with "+" exactly when it is non-negative, and with "-" exactly when it is negative |
| Aggregates.SignedTextParses | src/pages/WeeklyCalendarPage.js:256 | the signed difference text reads back as the difference |
| Aggregates.ShortfallLabelAsWritten | src/pages/WeeklyCalendarPage.js:186 | definition; its property is stated by Aggregates.ShortfallLabelAsWrittenDoubleMinus |
| Aggregates.ShortfallLabelAsWrittenDoubleMinus | src/pages/WeeklyCalendarPage.js:186 | above the goal, the summary shows two minus signs and no longer reads as a number |
| Aggregates.ShortfallLabel | src/pages/WeeklyCalendarPage.js:186 | the corrected label reads back as the signed difference from the goal, and equals the printed label below the goal |
| CalorieManagement.MacroTargets | src/pages/CalorieManagement.js:60-62 | protein, carbohydrate and sugar cap are the integers nearest g/16, 11g/80 and g/40 |
| CalorieManagement.MacroOrder | src/pages/CalorieManagement.js:60-62 | for a non-negative goal, carbs ≥ protein ≥ sugar cap ≥ 0 |
| CalorieManagement.DefaultMacros | src/pages/CalorieManagement.js:45 | the starting goal of 2000 gives 125 g, 275 g and 50 g |
| CalorieManagement.StatDiff | src/pages/CalorieManagement.js:75 | there is no difference exactly when the goal is missing or 0; otherwise value = goal + difference, and the difference is positive exactly above the goal and negative exactly below it |
| CalorieManagement.StatTone | src/pages/CalorieManagement.js:76 | red exactly when above a non-zero goal, blue exactly when below it |
| CalorieManagement.DiffLabel | src/pages/CalorieManagement.js:93-97 | the label is shown exactly when the goal is positive |
| CalorieManagement.DiffLabelAgreesWithTone | src/pages/CalorieManagement.js:75-96 | a shown label reads back as the difference; "+" exactly when not blue, "-" exactly when blue |
| CalorieManagement.UpdatedGoal | src/pages/CalorieManagement.js:65-71 | the goal either stays or becomes the parsed draft above 500; a parsed draft above 500 always ends up as the goal |
| CalorieManagement.UpdateWithTyped | src/pages/CalorieManagement.js:66-69 | saving typed text for p sets the goal to p when p > 500, and otherwise keeps it |
| CalorieManagement.UpdateUntouched | src/pages/CalorieManagement.js:295 | saving the text the edit button filled in keeps the goal |
| CalorieManagement.UpdateIdempotent | src/pages/CalorieManagement.js:65-71 | saving the same draft twice changes nothing the second time |
| CalorieManagement.GoalCard.constructor | src/pages/CalorieManagement.js:45-47 | the card starts at 2000, not editing |
| CalorieManagement.GoalCard.StartEdit | src/pages/CalorieManagement.js:295 | the draft becomes the goal's text and edit mode is on |
| CalorieManagement.GoalCard.ChangeDraft | src/pages/CalorieManagement.js:279 | the draft takes the input's text |
| CalorieManagement.GoalCard.UpdateGoal | src/pages/CalorieManagement.js:65-71 | the goal is updated by the draft and edit mode is off, with the goal kept above 500 |
| CalorieManagement.EditThenSaveKeepsGoal | src/pages/CalorieManagement.js:295 | starting an edit and saving at once keeps the goal |
| WeeklyCalendar.Weekday | src/pages/WeeklyCalendarPage.js:47 | a weekday is 0 (Sunday) to 6 |
| WeeklyCalendar.StartOfWeek | src/pages/WeeklyCalendarPage.js:47 | the week starts on the Sunday on or before the date |
| WeeklyCalendar.WeekDates | src/pages/WeeklyCalendarPage.js:47-51 | seven consecutive days, a Sunday first, containing the date |
| WeeklyCalendar.WeekdaysInOrder | src/pages/WeeklyCalendarPage.js:51-52 | day i of the window is weekday i |
| WeeklyCalendar.SameWeek | src/pages/WeeklyCalendarPage.js:47-51 | every day of a window has that same window |
| WeeklyCalendar.WeekShift | src/pages/WeeklyCalendarPage.js:58-64 | moving the date by a week moves every day of the window by seven |
| WeeklyCalendar.WeekView.constructor | src/pages/WeeklyCalendarPage.js:38-44 | the goal is read once from the store, 2000 when it is absent or empty |
| WeeklyCalendar.WeekView.PrevWeek | src/pages/WeeklyCalendarPage.js:58-60 | the date moves back seven days, and so does the window |
| WeeklyCalendar.WeekView.NextWeek | src/pages/WeeklyCalendarPage.js:62-64 | the date moves forward seven days, and so does the window |
| WeeklyCalendar.PrevThenNextRestores | src/pages/WeeklyCalendarPage.js:58-64 | previous then next restores the date and the goal |
| WeeklyCalendar.WeekRows | src/pages/WeeklyCalendarPage.js:67-73 | row i falls on weekday i, the rows are consecutive days with the viewed date among them, and each has the day's calories and the page's goal |
| WeeklyCalendar.RowsCalories | src/pages/WeeklyCalendarPage.js:67-73 | the rows carry exactly the calorie input, and every row's week is the rows' own week |
| WeeklyCalendar.AverageOfRandomWeek | src/pages/WeeklyCalendarPage.js:71-78 | a week of values from 1700 to 2199 averages to between 1700 and 2199 |
| WeeklyCalendar.CountRowStatus | src/pages/WeeklyCalendarPage.js:240-244 | a status count is at most the number of rows |
| WeeklyCalendar.SuccessRowsAreAchievedDays | src/pages/WeeklyCalendarPage.js:81-83 | for a positive or NaN goal, the table's "success" rows are as many as `achievedDays` |
| WeeklyCalendar.NaNGoalWeek | src/pages/WeeklyCalendarPage.js:240-245 | with a NaN goal no day is achieved, every row is "over" and every difference is NaN |
| WeeklyCalendar.DiffOver | src/pages/WeeklyCalendarPage.js:255 | definition; its properties are stated by WeeklyCalendar.DiffText and WeeklyCalendar.RowAndDiffAgree |
| WeeklyCalendar.DiffText | src/pages/WeeklyCalendarPage.js:255-256 | the text reads back as the difference, and starts with "+" exactly when the cell is "over" |
| WeeklyCalendar.RowAndDiffAgree | src/pages/WeeklyCalendarPage.js:241-255 | for a positive goal an "over" row has an "over" difference cell and an "under" row an "under" one |
| WeeklyCalendar.AchievementRate | src/pages/WeeklyCalendarPage.js:217 | definition; its properties are stated by WeeklyCalendar.AchievementRateRange, AchievementRateMonotone and AchievementRates |
| WeeklyCalendar.AchievementRateRange | src/pages/WeeklyCalendarPage.js:217 | for 0 to 7 days the rate is 0 to 100, with both ends reached |
| WeeklyCalendar.AchievementRateMonotone | src/pages/WeeklyCalendarPage.js:217 | more achieved days never lower the rate |
| WeeklyCalendar.AchievementRates | src/pages/WeeklyCalendarPage.js:217 | 1 to 6 days give 14, 29, 43, 57, 71 and 86 percent |
| WeeklyCalendar.WeekShortfall | src/pages/WeeklyCalendarPage.js:186 | NaN exactly for a NaN goal; otherwise non-negative exactly when the average is within the goal, and a multiple of 7 |
| WeeklyCalendar.WeekSummaryText | src/pages/WeeklyCalendarPage.js:186 | the corrected "so far" text reads back as the week's calories past the goal, and equals the printed text below the goal |
| MonthlyCalendar.MonthData | src/pages/MonthlyCalendarPage.js:28-32 | definition; its properties are stated by MonthlyCalendar.MonthAverageIsMean, MonthlyCalendar.GridLayout and MonthlyCalendar.MonthChartPoints |
| MonthlyCalendar.MonthAverage | src/pages/MonthlyCalendarPage.js:38-40 | definition; its properties are stated by MonthlyCalendar.MonthAverageIsMean |
| MonthlyCalendar.MonthAverageIsMean | src/pages/MonthlyCalendarPage.js:38-40 | the month average is the rounded mean of the thirty calorie values |
| MonthlyCalendar.MonthShortfall | src/pages/MonthlyCalendarPage.js:141 | non-negative exactly when the average is within 2000, and a multiple of 30 |
| MonthlyCalendar.MonthSummaryText | src/pages/MonthlyCalendarPage.js:141 | the corrected "so far" text reads back as the month's calories past the goal, and equals the printed text below the goal |
| MonthlyCalendar.CalendarGrid | src/pages/MonthlyCalendarPage.js:120-123 | definition; its properties are stated by MonthlyCalendar.GridLayout |
| MonthlyCalendar.GridLayout | src/pages/MonthlyCalendarPage.js:120-123 | the grid has 35 cells: five blanks, then cell i holds day i − 4 with its calories and goal 2000 |
| MonthlyCalendar.Kept | src/pages/MonthlyCalendarPage.js:45 | definition; its properties are stated by MonthlyCalendar.SampledIndices and MonthlyCalendar.SampledIndicesComplete |
| MonthlyCalendar.KeptFrom | src/pages/MonthlyCalendarPage.js:45 | definition; its properties are stated by MonthlyCalendar.KeptFromSound and MonthlyCalendar.KeptFromComplete |
| MonthlyCalendar.KeptFromSound | src/pages/MonthlyCalendarPage.js:45 | every listed index is a kept one, in range, in ascending order |
| MonthlyCalendar.KeptFromComplete | src/pages/MonthlyCalendarPage.js:45 | every kept index in range is listed |
| MonthlyCalendar.SampledIndices | src/pages/MonthlyCalendarPage.js:45 | the sampled indices are kept ones, in range, ascending |
| MonthlyCalendar.SampledIndicesComplete | src/pages/MonthlyCalendarPage.js:45 | every index that is a multiple of 5, and the last index, is sampled |
| MonthlyCalendar.SkipUnkept | src/pages/MonthlyCalendarPage.js:45 | a stretch without kept indices contributes nothing |
| MonthlyCalendar.KeptStep | src/pages/MonthlyCalendarPage.js:45 | a kept index heads the list from itself on |
| MonthlyCalendar.KeptBlock | src/pages/MonthlyCalendarPage.js:45 | away from the end, a multiple of 5 is followed by four dropped indices |
| MonthlyCalendar.SampledFrom20 | src/pages/MonthlyCalendarPage.js:45 | of thirty points, those from 20 on are 20, 25 and 29 |
| MonthlyCalendar.SampledFrom10 | src/pages/MonthlyCalendarPage.js:45 | of thirty points, those from 10 on are 10, 15, 20, 25 and 29 |
| MonthlyCalendar.SampledMonth | src/pages/MonthlyCalendarPage.js:44-46 | thirty points are sampled at 0, 5, 10, 15, 20, 25 and 29 |
| MonthlyCalendar.Sample | src/pages/MonthlyCalendarPage.js:44-46 | definition; its properties are stated by MonthlyCalendar.SampleKeeps |
| MonthlyCalendar.SampleKeeps | src/pages/MonthlyCalendarPage.js:44-46 | the filter keeps exactly the kept positions: each entry is the element at a kept position, positions increase, and every kept position's element is there |
| MonthlyCalendar.DayLabel | src/pages/MonthlyCalendarPage.js:46 | definition; its properties are stated by MonthlyCalendar.MonthChart and MonthlyCalendar.MonthChartPoints |
| MonthlyCalendar.MonthChart | src/pages/MonthlyCalendarPage.js:43-67 | labels, calories and goals are equally long, and entry j of each comes from the same record |
| MonthlyCalendar.MonthChartPoints | src/pages/MonthlyCalendarPage.js:44-67 | the month chart has seven points, the last labelled day 30, all at goal 2000 |
| MonthlyCalendar.Achieved | src/pages/MonthlyCalendarPage.js:178-180 | definition; its properties are stated by MonthlyCalendar.AchievedRange |
| MonthlyCalendar.AchievedRange | src/pages/MonthlyCalendarPage.js:178-180 | against 2000 a day is achieved exactly when it has 1800 to 2200 kcal |
| Edamam.EnsureEnv | src/api/edamam.js:6-12 | definition; its effect is stated by Edamam.BuildRequest and Edamam.FetchNutrition |
| Edamam.BuildRequest | src/api/edamam.js:25-43 | a missing id or key fails first; then a name that trims to nothing fails; otherwise the request carries the id, the key and the non-empty trimmed name |
| Edamam.RealOrZero | src/api/edamam.js:60 | definition; its effect is stated by Edamam.NutrientAmount and Edamam.Extract |
| Edamam.NutrientAmount | src/api/edamam.js:65-67 | the whole number nearest the entry's quantity, and 0 when the entry or its quantity is missing |
| Edamam.Extract | src/api/edamam.js:51-76 | fails with the status exactly when it is not OK; otherwise each of the four values is the whole number nearest its figure in the body, and 0 when that figure is missing |
| Edamam.FailureIgnoresBody | src/api/edamam.js:51-53 | a failed status gives the same error whatever the body holds |
| Edamam.ExtractDependsOnFigures | src/api/edamam.js:60-67 | two OK responses that agree on calories and the three quantities give the same four values |
| Edamam.FetchNutrition | src/api/edamam.js:25-76 | the configuration error first, then the blank-name error, and otherwise the outcome of the one request for the trimmed name |
| Edamam.BlankNameMakesNoRequest | src/api/edamam.js:29-31 | a white-space name fails whatever the network would answer |
| Edamam.RequestForTrimmedName | src/api/edamam.js:39-48 | a name with a visible character leads to the request for its trimmed form |
| Edamam.TrimIdempotent | src/api/edamam.js:42 | trimming twice is trimming once |
| Edamam.PaddingIrrelevant | src/api/edamam.js:29-43 | surrounding white space on the name changes neither the checks nor the request |
| Edamam.EmptyBodyGivesZeros | src/api/edamam.js:60-67 | an OK response without data gives four zeros |

## Left out

- Rendering is not modelled: JSX, CSS, icons, navigation, the doughnut chart with its constant data, and the line charts' options. Only the monthly chart's index sampling and its three series are kept.
- The random calorie, protein, carbohydrate and sugar generators are not modelled. Their values are inputs, and `WeeklyCalendar.AverageOfRandomWeek` takes their range as a precondition.
- `src/api/mealApi.js` is network I/O with no logic of its own, and it is not part of this model.
- The nutrition lookup's `fetch`, `res.json()`, `console.log` and URL encoding are not modelled. The round trip is a function from request to response. A non-string food name is not modelled either.
- `alert`, `selectedDate` and its modal, and the monthly `currentMonth` title are UI state and are not modelled. The monthly cells' `hasData` flag is left out because every record has calories.
- Date formatting and the Korean locale are not modelled. The week functions' behaviour is an assumption stated by `WeeklyCalendar.WeekDates`.
- Arithmetic is exact, so IEEE-754 rounding artefacts are not modelled. NaN is modelled wherever the code can produce it (a non-numeric stored goal, the mean of no values), and the band and rate tests use `JsValues.Float`, whose comparisons are false on NaN and whose division by 0 gives ±Infinity.
- JsValues.NumberOf: reads only blank text and signed decimal integers. Fractional, exponent, hexadecimal and `Infinity` literals read as NaN in the model, not as the numbers JavaScript gives.
- TodayDiet.TodayDietPage.SetGoal: because `JsValues.NumberOf` reads only integer literals, a fractional goal such as "1800.5" sets the goal to 0 and stores "0", where the page would keep 1800.5.
- TodayDiet.TodayDietPage.EditSave: for the same reason, typed fractional text such as "12.5" saves NaN, and the total then counts that meal as 0 where the page would add 12.5.
- JsValues.ParseInt: reads only radix 10 and does not treat a `0x` prefix as hexadecimal. Number inputs never produce one.
- JsValues.IntToString: gives plain decimal text for every integer, where JavaScript switches to exponent form above 10^21.
- GoalRecommendation.Recommend: takes weight, height, age and target weight already converted by `Number`, 0 for a blank input. A NaN from non-numeric text is not modelled, since number inputs give blank or numeric text.
- Numbers are unbounded integers and exact reals. The loss of integer precision in JavaScript's doubles above 2^53 is not modelled.
- No macro split is computed: the doughnut chart's data is a constant. There is no fasting timer. Neither is modelled.
- The month grid always has five leading blanks. The model follows the code here; it does not compute the weekday of the first of the month.

## Findings

| source | as written | input that shows it | evidently intended | confidence | as-written member | corrected member |
|---|---|---|---|---|---|---|
| src/pages/WeeklyCalendarPage.js:186 | the "so far" figure prints a literal `-` before `(goal − average) × 7` | goal 2000, average 2050: the shortfall is −350 and the page shows "--350kcal" | the signed difference from the goal, "+350" above the goal and "-350" below it | medium; not executed | Aggregates.ShortfallLabelAsWrittenDoubleMinus | Aggregates.ShortfallLabel |
| src/pages/MonthlyCalendarPage.js:141 | the same literal `-` before `(2000 − average) × 30` | an average of 2010: the shortfall is −300 and the page shows "--300kcal" | the signed difference from the goal | medium; not executed | Aggregates.ShortfallLabelAsWrittenDoubleMinus | Aggregates.ShortfallLabel |
