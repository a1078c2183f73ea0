# Recipe app: a verified model of its core

This project is a Dafny model of the core of a Django recipe-sharing application. Users own recipes. A recipe lists recipe ingredients: quantified uses of a named ingredient, with calories, amount and unit, cost, supplier and grams. The two are joined through a link table whose rows cascade when either end is deleted.

The object-relational store is modelled as four tables kept in primary-key order: recipes, ingredients, recipe ingredients and links. `Intermediary.Tables` holds them as a value, and the class `Intermediary.Database` holds them as fields that the views reassign. `WellFormed` states what the database guarantees:

- unique increasing keys;
- unique recipe titles;
- foreign keys that resolve.

Every insert, update and cascading delete is proved to preserve it.

Modules, one per source file (recipe/views.py is split three ways):

- `Common`, `Text`: `Option`, and Python's `str.strip()`. Also the `icontains` substring test with ASCII case folding (SQLite's LIKE), `str.startswith`, decimal `str(n)` with its inverse, and the cleaning of a Django `CharField`.
- `RecipeIngredientModel` (recipeingredient/models.py):
  - field validation, with decimals as whole hundredths bounded by eight digits;
  - the fifteen units;
  - `__str__`.
- `RecipeModel` (recipe/models.py): field validation, `__str__`, `get_absolute_url`, and the decision table of `calculate_difficulty`.
- `Intermediary` (recipeingredientintermediary/models.py):
  - link rows, the store and its integrity;
  - `recipe.recipe_ingredients.all()` and `calculate_difficulty` over the store;
  - the link `__str__`;
  - both cascades and the `Database` class.
- `RecipeSearch` (recipe/views.py): the three search modes, the title-to-URL map and the owner listing.
- `RecipeDetail` (recipe/views.py):
  - the per-ingredient table of the detail page, with rows in first-appearance order and values from the last record of each name;
  - `format_cost` on whole cents.
- `RecipeViews` (recipe/views.py):
  - adding an ingredient (get-or-create by name, one record, one link) and the referer redirect;
  - deleting the first linked record with a name;
  - deleting, creating and editing recipes, with the picture kept unless a picture string is posted.
- `RecipeForms` (recipe/forms.py): the search form, the add-ingredient form, the create/edit form errors and the `base64_string` rules. Every form `CharField` strips its text before checking it and refuses a NUL character. The create and edit forms judge and save the stripped text columns.
- `ProfileForm` (customuser/forms.py): the password-change checks of `clean`, in their order, and `save`.
- `CustomFilters` (recipe/templatetags/custom_filters.py): `make_list`.

In `calculate_difficulty` the slow branch for many ingredients tests `>= 4`, but the quick branch tests `> 4`. So a cooking time under 10 with exactly four ingredients gets no tier. The model follows the code (`RecipeModel.Classify`), and the gap is reported under Findings.

`RecipeEditView.form_valid` assigns the editing user as the recipe's owner and checks no ownership. `RecipeViews.EditRecipeView` does the same.

## Model

| member | source | states |
|---|---|---|
| RecipeModel.FieldsValidIff | recipe/models.py:18-45 | a recipe passes validation iff: the title is 1..255 characters; directions are non-blank; cooking time and servings are present and non-negative; the star count is present and in 1..5; the type is one of the nine; the short description is non-blank |
| RecipeModel.YieldAmountUnconstrained | recipe/models.py:38 | any `yield_amount` within the integer column's range, negative or absent, leaves the errors unchanged |
| RecipeModel.NegativeColumnsRejected | recipe/models.py:31-37 | cooking time -10, star count -2 and servings -3 are each rejected |
| RecipeModel.AbsoluteUrl | recipe/models.py:50-51 | the URL starts with "/detail/" and the rest reads back as the primary key |
| RecipeModel.AbsoluteUrlInjective | recipe/models.py:50-51 | two recipes have the same URL iff they have the same primary key |
| RecipeModel.ClassifyTable | recipe/models.py:56-63 | under 10 minutes, fewer than 4 ingredients is Easy and more than 4 is Medium; from 10 minutes on, fewer than 4 is Intermediate and 4 or more is Hard |
| RecipeModel.ClassifyGap | recipe/models.py:56-63 | no tier is returned exactly when the cooking time is under 10 with exactly 4 ingredients; any result is one of the four tiers |
| RecipeModel.ClassifyGapWitness | recipe/models.py:58 | 3 minutes with 4 ingredients yields no tier |
| RecipeModel.ClassifyIntended | recipe/models.py:56-63 | the corrected table always yields a tier; Easy/Medium iff under 10 minutes, Easy/Intermediate iff fewer than 4 ingredients |
| RecipeModel.ClassifyIntendedExtends | recipe/models.py:56-63 | the corrected table agrees with the chain wherever the chain yields a tier |
| Intermediary.CalculateDifficulty | recipe/models.py:53-66 | the sentinel is returned iff the recipe is unsaved or has no cooking time; otherwise, on a well-formed store, the table is applied to the recipe's link count |
| Intermediary.RecipeStrIdentifies | recipe/models.py:47-48 | in a well-formed store two recipes have the same string iff they are the same recipe |
| RecipeIngredientModel.ValidIff | recipeingredient/models.py:23-37 | a record's own fields pass iff: amount, cost and grams are non-negative; every decimal fits 8 digits with 2 decimals; the unit is one of the 15; the supplier is 1..255 characters |
| Intermediary.FullCleanIff | recipeingredient/models.py:23-37 | against the store, a record passes iff its own fields pass and a stored ingredient has its `ingredient` key; the `ingredient` error arises exactly when none does, and never for a record of a well-formed store |
| RecipeIngredientModel.NegativeCaloriesAccepted | recipeingredient/models.py:26 | negating the calorie content of a valid record keeps it valid |
| RecipeIngredientModel.NegativeOrBlankRejected | recipeingredient/models.py:31-37 | cost -10.50, grams -10.75 and a blank supplier are each rejected |
| RecipeIngredientModel.Str | recipeingredient/models.py:39-40 | the string starts with "Recipe Ingredient: " and ends with the ingredient name |
| RecipeIngredientModel.StrDeterminesId | recipeingredient/models.py:39-40 | for one ingredient name, two records have the same string iff they have the same id |
| Intermediary.LinkedRecipeIngredients | recipe/models.py:26-29 | yields records of the table. On a well-formed store it yields exactly one per link row of the recipe, duplicates included, and the k-th record is the one the k-th link names |
| Intermediary.IngredientName | recipeingredient/models.py:25 | no name iff no ingredient has the record's ingredient key; otherwise the name of an ingredient with that key, and with unique keys the name of that very ingredient; on a well-formed store every stored record has a name |
| Intermediary.LinkLabel | recipeingredientintermediary/models.py:10-11 | a stored link always has a label, and the label is exactly its recipe's title, " - " and the name of the ingredient of the record it links |
| Intermediary.AddLinkCounts | recipeingredientintermediary/models.py:4-8 | a new link row raises its recipe's count by exactly one, even for an already-linked pair, and leaves every other count alone |
| Intermediary.WithoutRecipeWellFormed | recipeingredientintermediary/models.py:5 | deleting a recipe with its links keeps the store well formed |
| Intermediary.WithoutRecipeOtherCounts | recipeingredientintermediary/models.py:5 | deleting a recipe changes no other recipe's link count |
| Intermediary.DeleteRecipeCascade | recipeingredientintermediary/models.py:5 | exactly the recipe's row goes and every other recipe stays; exactly its links go; recipe ingredients and ingredients stay; the store stays well formed, the recipe's count is 0 and other counts are unchanged |
| Intermediary.WithoutRecipeIngredientWellFormed | recipeingredientintermediary/models.py:6-8 | deleting a record with its links keeps the store well formed |
| Intermediary.WithoutRecipeIngredientCounts | recipeingredientintermediary/models.py:6-8 | deleting a record never raises a count, and lowers the count of every recipe that linked it |
| Intermediary.DeleteRecipeIngredientCascade | recipeingredientintermediary/models.py:6-8 | exactly the record's row goes and every other record stays; every link to it, from any recipe, goes; other links, recipes and ingredients stay; the store stays well formed |
| Intermediary.ReplaceRecipeWellFormed | recipe/models.py:20 | updating a recipe whose new title no other recipe holds keeps the store well formed and the set of ids unchanged |
| Intermediary.Database.CreateIngredient | recipe/views.py:253-254 | appends an ingredient with the name and a fresh id; the store stays valid |
| Intermediary.Database.CreateRecipeIngredient | recipe/views.py:256-264 | appends a record with the given values and a fresh id; the store stays valid |
| Intermediary.Database.CreateLink | recipe/views.py:266-269 | appends one link row for the pair; the store stays valid |
| Intermediary.Database.CreateRecipe | recipe/views.py:222-227 | appends the recipe with a fresh id; the store stays valid |
| Intermediary.Database.UpdateRecipe | recipe/views.py:323-328 | replaces the row with the same id; the store stays valid |
| Intermediary.Database.DeleteRecipe | recipeingredientintermediary/models.py:5 | the store becomes the recipe cascade of the old store and stays valid |
| Intermediary.Database.DeleteRecipeIngredient | recipeingredientintermediary/models.py:6-8 | the store becomes the record cascade of the old store and stays valid |
| RecipeSearch.OwnedRecipes | recipe/views.py:58-61 | a recipe is listed iff it is stored and owned by the user |
| RecipeSearch.OwnedRecipesById | recipe/views.py:61 | the owner listing is in increasing id order |
| RecipeSearch.MatchingLinkCountPositive | recipe/views.py:191-194 | a recipe appears in the ingredient-name join iff one of its linked records names an ingredient containing the query |
| RecipeSearch.IngredientMatches | recipe/views.py:204-206 | a recipe is in the fallback result iff it is in scope and has a matching link |
| RecipeSearch.ScopedSearch | recipe/views.py:200-208 | results are drawn from the scope |
| RecipeSearch.Scope | recipe/views.py:183-187 | for "#1" exactly the actor's stored recipes (none when anonymous); for every other mode the whole recipe table |
| RecipeSearch.Search | recipe/views.py:174-213 | results are stored recipes. Mode "#1" gives nothing to an anonymous actor and only the actor's own recipes otherwise. Modes "#1"/"#2" give nothing for a blank query. Any other mode lists every recipe |
| RecipeSearch.AnonymousOwnSearchEmpty | recipe/views.py:178-179 | an anonymous "#1" search is empty whatever the query |
| RecipeSearch.ShowAllListsEverything | recipe/views.py:210-211 | "#3" lists every recipe, even for a blank query |
| RecipeSearch.SearchFinds | recipe/views.py:183-208 | for a non-blank query in "#1"/"#2": if any recipe in scope has a matching title, exactly those recipes in table order; otherwise exactly the recipes in scope with a matching linked ingredient name |
| RecipeSearch.UrlMap | recipe/views.py:140 | the map's keys are exactly the result titles |
| RecipeSearch.UrlMapOfUniqueTitles | recipe/views.py:140 | with unique titles every recipe's title maps to its own detail URL |
| RecipeSearch.SearchUrlsLeadToResults | recipe/views.py:136-140 | on a well-formed store each found recipe's title maps to its detail URL, which reads back to its id |
| RecipeDetail.FormatCost | recipe/views.py:78-79 | the text starts with "$" and ends with "." and two digits |
| RecipeDetail.FormatCostRoundTrip | recipe/views.py:78-79 | reading the rendered cost back gives the cents |
| RecipeDetail.FormatCostInjective | recipe/views.py:78-79 | two costs render alike iff they are equal |
| RecipeDetail.Entries | recipe/views.py:104-107 | when every record has an ingredient, one entry per record in order, carrying its name, calories, grams and cost |
| RecipeDetail.RecipeEntries | recipe/views.py:91-94 | on a well-formed store the page reads one entry per link of the recipe |
| RecipeDetail.Dedup | recipe/views.py:97 | the keys are exactly the names that occur, and no more of them than names |
| RecipeDetail.DedupDistinct | recipe/views.py:97 | no name is listed twice |
| RecipeDetail.DedupFirstAppearance | recipe/views.py:97 | names are listed in order of their first occurrence |
| RecipeDetail.LastWith | recipe/views.py:104-107 | finds nothing iff no entry has the name; otherwise an entry with the name that no later entry shares |
| RecipeDetail.TableStep | recipe/views.py:104-107 | writing one more record overwrites exactly the row of its name |
| RecipeDetail.BuildReport | recipe/views.py:90-107 | one row per distinct name in first-appearance order, each holding the calories, grams and formatted cost of the last record with that name |
| RecipeForms.SearchFormErrors | recipe/forms.py:34-51 | only `search_mode` and `search` can be in error |
| RecipeForms.SearchFormIff | recipe/forms.py:34-51 | the mode passes iff it is "#1", "#2" or "#3"; the query passes iff it is at most 150 characters after stripping and holds no NUL character, and it may be absent or empty |
| RecipeForms.BlankOrUnknownModeRejected | recipe/forms.py:7-14 | a blank or unknown mode is rejected |
| RecipeForms.IngredientFormValidIff | recipe/forms.py:118-137 | valid iff: name and supplier are 1..255 characters once stripped and hold no NUL character; every decimal is present and fits; amount, cost and grams are non-negative; the unit is one of the 15. `recipe_id`, absent or an integer, never fails |
| RecipeForms.MissingFieldsFiveErrors | recipe/forms.py:119-133 | posting only calories and grams yields exactly five errors: ingredient, amount, amount_type, cost, supplier |
| RecipeForms.GramsIsNotAUnit | recipe/forms.py:15-31 | the unit "grams" is rejected and "gram" is accepted |
| RecipeForms.NegativeQuantities | recipe/forms.py:122-133 | negative amount, cost or grams fail; a negative calorie content that fits does not |
| RecipeForms.FormValues | recipe/forms.py:122-133 | a valid form carries every decimal and a unit |
| RecipeForms.RecordFrom | recipe/views.py:256-263 | the record built from a form has the given id and ingredient |
| RecipeForms.ValidFormGivesValidRecord | recipe/views.py:256-264 | a record built from a valid form passes the model's validation |
| RecipeForms.Base64Errors | recipe/forms.py:61-63 | the picture string yields no error or only its own |
| RecipeForms.Base64RequiredOnlyOnCreate | recipe/forms.py:61-91 | on create the picture string passes iff it is non-blank with no NUL character; on edit it passes iff it is absent or has no NUL character, so an empty one passes |
| RecipeForms.CleanFieldsIdempotent | recipe/forms.py:54-71 | cleaning the text columns twice gives what cleaning once gives |
| RecipeForms.CleanedFormErrors | recipe/forms.py:54-71 | on cleaned columns, no error iff the model validation passes, the short description is at most 200 characters, no text column holds a NUL character and the picture rule holds |
| RecipeForms.RecipeFormValidIff | recipe/forms.py:54-98 | in terms of what was posted, valid iff: the title is non-blank and at most 255 characters once stripped; directions and the short description are non-blank; the short description is at most 200 characters once stripped; no text column holds a NUL character; cooking time and servings are present and non-negative; the star count is in 1..5; the type is one of the nine; the picture rule holds |
| RecipeForms.RecipeFormSeesCleaned | recipe/forms.py:54-71 | posting the cleaned columns gives the same errors as posting the raw ones |
| RecipeForms.TitleFormErrorIff | recipe/forms.py:54-71 | on cleaned columns, the title is in error iff it is empty, longer than 255 characters or holds a NUL character |
| RecipeForms.PostedTitleFormErrorIff | recipe/forms.py:54-71 | the title is in error iff the posted title is blank, longer than 255 characters once stripped, or holds a NUL character |
| RecipeForms.WhitespaceIsNotText | recipe/forms.py:54-71 | a whitespace-only title, directions or short description is in error; a space on each side of a trimmed title changes nothing about its error |
| RecipeForms.InitialBase64 | recipe/forms.py:101-107 | the hidden input is pre-filled iff the picture is non-empty, and then with the picture |
| RecipeForms.ChoosePicture | recipe/views.py:224-226 | a non-empty cleaned picture string replaces the picture; otherwise the picture is kept |
| RecipeForms.PrefilledEditKeepsPicture | recipe/forms.py:105-107 | re-posting the pre-filled value keeps the picture |
| RecipeViews.SiteRoot | recipe/views.py:276 | for a non-empty root, the root without its last character |
| RecipeViews.SuccessUrl | recipe/views.py:273-279 | the result is "/your_recipes" or the referer. The referer is returned whenever it is non-empty and starts with the root minus its last character |
| RecipeViews.SuccessUrlFollowsLookalikeHost | recipe/views.py:276 | referer "http://example.com.evil.net/" is followed for root "http://example.com/" |
| RecipeViews.SuccessUrlIntended | recipe/views.py:273-279 | the result is "/your_recipes" or a referer on the site (the root with or without its slash, or under it), and every such referer is followed |
| RecipeViews.SuccessUrlIntendedNarrows | recipe/views.py:276 | the intended rule follows a referer only where the written one does, and it refuses the lookalike host |
| RecipeViews.TargetRecipe | recipe/views.py:246-247 | no recipe iff the id is absent, negative or unknown; otherwise the stored recipe with that id |
| RecipeViews.Named | recipe/views.py:251 | the ingredients whose name equals the input exactly |
| RecipeViews.GetOrCreateIngredient | recipe/views.py:250-254 | several ingredients with the name fail and write nothing; one is reused unchanged; none means one is appended with the name |
| RecipeViews.AddIngredient | recipe/views.py:245-271 | fails and writes nothing iff the recipe is unknown or the name is ambiguous. Otherwise it redirects to the success URL and appends exactly one record with the form's values and the named ingredient, plus one link to the recipe; the recipe's count grows by one and no other count changes |
| RecipeViews.FirstNamedIsFirst | recipe/views.py:305-309 | the scan finds nothing iff no linked record has the name; otherwise the first one that has it |
| RecipeViews.DeleteIngredient | recipe/views.py:298-314 | an unknown recipe is a 404 with no change. Otherwise the store becomes the cascade of the first linked record with the name (unchanged when none matches), and the view redirects to "/your_recipes/" |
| RecipeViews.DeleteRecipeView | recipe/views.py:282-285 | an unknown recipe is a 404 with no change; otherwise the recipe cascade and a redirect to "/your_recipes/" |
| RecipeViews.TitleCheckOnCreate | recipe/models.py:20 | with unique titles, inserting a new recipe keeps them unique iff the title check passes |
| RecipeViews.TitleCheckOnEdit | recipe/models.py:20 | with unique titles, rewriting a stored recipe keeps them unique iff no recipe other than the edited one holds the new title |
| RecipeViews.TitleErrorIff | recipe/models.py:20 | the title is in error iff, once stripped, it is empty, longer than 255 characters, holds a NUL character, or is held by a stored recipe other than the one being edited |
| RecipeViews.PaddedTitleIsTaken | recipe/models.py:20 | a stored title posted with a space on each side is refused as a duplicate |
| RecipeViews.CreateRecipeView | recipe/views.py:216-227 | with errors, the page is rendered with exactly those errors and nothing is written. Otherwise the view redirects to the literal "/your_recipes" and one recipe is appended, owned by the actor, with the cleaned (stripped) columns and the submitted picture; it passes model validation |
| RecipeViews.EditRecipeView | recipe/views.py:317-328 | an unknown recipe is a 404; with errors the page is rendered and nothing is written. Otherwise the view redirects to "/your_recipes/" and the row is replaced by the cleaned (stripped) columns, owned by the editor, with the picture replaced only by a non-empty picture string |
| ProfileForm.MismatchIff | customuser/forms.py:42-45 | the mismatch error is raised iff a first new password is typed and the confirmation differs |
| ProfileForm.EmptyNewPasswordNeverMismatches | customuser/forms.py:42 | an empty first new password never mismatches |
| ProfileForm.WrongOldPasswordRejected | customuser/forms.py:48-49 | a typed old password that the check refuses makes the form invalid |
| ProfileForm.EmptyOldPasswordSkipsCheck | customuser/forms.py:48 | with an empty old password the outcome does not depend on the check, and the old-password error is never raised |
| ProfileForm.MismatchReportedFirst | customuser/forms.py:42-49 | when both checks fail, the mismatch is reported |
| ProfileForm.CleanValidIff | customuser/forms.py:35-51 | valid iff the passwords agree or the first is empty, and the old password is empty or accepted |
| ProfileForm.CustomUser.Save | customuser/forms.py:53-60 | the profile columns take the submitted values; the password changes only for a non-empty first new password, and then equals the confirmation |
| CustomFilters.MakeList | recipe/templatetags/custom_filters.py:7-8 | the length is n for n ≥ 1 and 0 otherwise, and the element at position i is i + 1 |
| CustomFilters.MakeListCountsUp | recipe/templatetags/custom_filters.py:7-8 | for n ≥ 1, the list starts at 1, ends at n, climbs by one, and holds exactly the values 1..n |

## Left out

- Charts (`get_chart`) are not modelled. The same goes for the DataFrame-to-HTML rendering and its string patching, `json.dumps` of the URL map, and the detail page's swallowing of exceptions. They are rendering, plotting and logging. The table's rows and values are modelled; their HTML is not.
- Pagination (`Paginator`) and the `RecipeHome` title loop (`get_recipe_from_title`, whose changes are discarded when the query runs again) are framework behaviour. The home listing is the recipe table itself, which the store keeps in id order.
- Authentication, login redirects and users as records are not modelled: `actor` is a user id or absent. Deleting a user, which cascades to their recipes, is not modelled either.
- Password hashing is not modelled. `check_password` is a parameter, and `ProfileForm.CustomUser.Save` stores the new password as given.
- Images and picture strings are opaque text: no upload, storage or base64 decoding.
- Cleaning and validation of the `adapted_link` URL (stripping, the URL scheme, NUL characters), the profile form's email and picture fields, and the database backend's bounds on integer columns, `yield_amount` included, are not modelled.
- FieldsValidIff: a `yield_amount`, cooking time or servings count outside its integer column's range, which the backend's validators reject, is accepted. The range belongs to the database backend, whose settings are not part of this model.
- CleanedFormErrors: the same `yield_amount` range bound is not checked, because the form's `full_clean` inherits it from the model field.
- RecipeFormValidIff: the same `yield_amount` range bound is not part of the iff.
- YieldAmountUnconstrained: holds within the integer column's range only; outside it the source reports a `yield_amount` error.
- EditRecipeView: a POST that leaves out the `yield_amount` or `adapted_link` key is read as if the field were posted blank, so the model stores `None`. The source's `construct_instance` skips a field that has a model default and whose key is absent, so it keeps the stored value. A browser always posts both keys.
- Decimal text is not parsed. Form and model decimals are whole hundredths, so an input with more than two decimal places cannot be expressed.
- RecipeIngredientModel.ValidIff: it covers the record's own fields only. The `ForeignKey.validate` check that the ingredient exists needs the store, so it is stated by `Intermediary.FullCleanIff`.
- IngredientFormValidIff: `recipe_id` is modelled as absent or an integer. Non-integer text, which `forms.IntegerField` rejects with "Enter a whole number.", cannot be expressed, so that rejection is not modelled.
- The recipe app's routes are taken to be mounted at the site root, so `reverse_lazy("recipe:your_recipes")` is "/your_recipes/". The project URL configuration is not part of this model.
- `RecipeDetail.FormatCost` works on whole cents. The source goes through a float; for values of at most eight digits with two decimals this gives the same text.
- `icontains` folds ASCII letters only, as SQLite's LIKE does, with no Unicode case folding.
- Querysets without `order_by` are listed in table order. The ingredient-name join yields a recipe once per matching link, recipe by recipe.
- The Ingredient model itself (ingredient/models.py) is not part of this model. An ingredient is an id and a name, and its string is taken to be the name.
- `RecipeForm.save` and `RecipeEditForm.save` with a `user` argument are left out, because the views never pass one. The second `form.save()` that `IngredientAddView.form_valid` reaches through `super()` rewrites the same link row with the same values; it is modelled as one insert.
- Concurrency and transactions are not modelled; each view runs alone.

## Findings

| source | as written | input that shows it | evidently intended | confidence | as-written member | corrected member |
|---|---|---|---|---|---|---|
| recipe/models.py:56-63 | the Medium branch tests `ingredients_len > 4`, so a cooking time under 10 with exactly four ingredients matches no branch and the method returns `None` | cooking time 3 with four linked ingredients | Medium for four or more ingredients under 10 minutes, mirroring the `>= 4` of the Hard branch on line 62, so that every input gets a tier | high; not executed | RecipeModel.ClassifyGapWitness | RecipeModel.ClassifyIntended |
| recipe/views.py:276 | the referer is followed when it starts with the absolute root minus its trailing slash, so a host whose name extends the site's passes | root "http://example.com/", referer "http://example.com.evil.net/" | follow only referers on the site: the root itself or a path under it | medium; not executed | RecipeViews.SuccessUrlFollowsLookalikeHost | RecipeViews.SuccessUrlIntended |

The view and store methods model the code as written: `Intermediary.CalculateDifficulty` uses the as-written table, and `RecipeViews.AddIngredient` uses the as-written redirect rule. The corrected definitions stand beside them, with their properties proved.
