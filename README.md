# Assemble: unique slugs and password confirmation

Assemble is a Django project and task tracker. Almost all of it is framework
glue. This project models the two pieces of logic the repository writes itself,
and proves properties of them in Dafny.

1. **Unique slugs** (`assemble/models1.0.py`). `Project`, `ProjectComponent` and
   `ComponentTask` each derive a URL slug from their name. The base is
   `slugify(name)`. Each model probes `base`, `base-1`, `base-2`, … and takes the
   first candidate that its own table does not hold yet. `save` assigns a slug only
   when none is set, then stores the record.
   - Module `Slugs` defines the probe order (`Candidate`) and the reference
     definition of the result (`FirstFree`, `UniqueSlug`). It also has the
     imperative `while` loop of `_get_unique_slug` (`GetUniqueSlug`), proved
     equal to that definition.
   - Module `Models` has one class per model. Each class holds the `slug` field
     that its `Save` method updates.
   - A `Tables` object holds the set of slugs held by the stored rows of each
     of the three tables. The query `Model.objects.filter(slug=s).exists()`
     becomes `s in` that model's set.
   - Each record also remembers the slug its stored row holds (`storedSlug`,
     `None` until the first save). Storing a record is an insert or an update of
     its row: the row's previous slug leaves the table and the record's slug
     enters it.
2. **Password confirmation** (`assemble/forms.py`). Module `Forms` has:
   - `clean_password2` as a total function that returns either a cleaned value or
     the `password_mismatch` error (`CleanPassword2`);
   - the form's error state as a class (`UserCreationForm`);
   - `_post_clean`'s gate on the external password validator (`PostClean`).

Conventions:
- An optional value (`None` or a value) is `Wrappers.Option`.
- A slug, or a password, counts as set the way Python's truth test reads it: it
  must be present and non-empty (`Models.IsSet`, `Forms.Truthy`).
- `slugify` is a parameter `slugify: string -> string`. The external validator
  `password_validation.validate_password` is a parameter too. It returns the
  list of errors it would raise, and an empty list means the password is
  accepted.

The numbers in the suffix are printed the way Python's f-string prints an `int`:
decimal digits with no leading zero (`Slugs.Decimal`). `Slugs.ParseDecimal`
reads them back.

Termination of the probing loop comes from a counting argument. The candidates
are pairwise distinct (`CandidateInjective`), so at most `|taken|` of them can
be taken (`ProbeBound`). The loop therefore probes at most `|taken| + 1`
candidates, and `num` only ever grows by one.

One behaviour of the code as written deserves a note. If a name slugifies to the
empty string and the table holds no empty slug yet, the record gets the empty
slug `""`. Python reads `""` as "not set", so the next `save` of that record
replaces it with the first free `-n`. On a table that holds nothing else, that
is `-1`, and the update releases `""` for the next such record
(`Models.EmptySlugReassigned`). Apart from that case,
saving twice never changes the slug that the first save assigned
(`Models.SaveProjectTwice` and its two siblings). The model states this
behaviour as it is. It does not claim an intended alternative.

## Model

| member | source | states |
|---|---|---|
| `Slugs.Decimal` | assemble/models1.0.py:24 | the suffix number is printed as at least one decimal digit, with no leading zero unless the number is 0 |
| `Slugs.ParseDecimalOfDecimal` | assemble/models1.0.py:24 | reading the printed suffix number back gives the number itself (round trip) |
| `Slugs.DecimalInjective` | assemble/models1.0.py:24 | different suffix numbers print as different strings |
| `Slugs.CandidateShape` | assemble/models1.0.py:24 | every suffixed candidate is the original base, one `-`, and then only the digits of its number, so no candidate has two suffixes (never `a-1-2`) |
| `Slugs.CandidateInjective` | assemble/models1.0.py:21-25 | no two positions in the probe order `base, base-1, …` give the same string |
| `Slugs.ProbeBound` | assemble/models1.0.py:23-25 | if the first k candidates are all taken, then k ≤ \|taken\|; this bounds the loop |
| `Slugs.FirstFree` | assemble/models1.0.py:22-25 | the index of the first free candidate exists, is at most \|taken\|, names a free candidate, and every earlier candidate is taken |
| `Slugs.UniqueSlug` | assemble/models1.0.py:19-26 | the result is not in the table; it is the base itself when the base is free; otherwise it is `base + "-" + decimal(n)` for some 1 ≤ n ≤ \|taken\|, and every earlier candidate is taken |
| `Slugs.UniqueSlugIsFirstFree` | assemble/models1.0.py:22-25 | the result equals candidate n if and only if candidate n is the first free one in probe order (minimality, both directions) |
| `Slugs.UniqueSlugEmpty` | assemble/models1.0.py:20-26 | the result is empty if and only if the base is empty and the table holds no empty slug |
| `Slugs.GetUniqueSlug` | assemble/models1.0.py:19-26 | the `while` loop over `unique_slug` and `num` terminates and returns exactly `UniqueSlug(base, taken)` |
| `Models.Project.Save` | assemble/models1.0.py:29-32 | a set slug is kept; an unset one (None or "") becomes the unique slug for `slugify(name)`, which is free in the project table; storing then releases the slug the row held before and puts the record's slug in the project table; no other field and no other table changes |
| `Models.ProjectComponent.Save` | assemble/models1.0.py:59-62 | the same as for `Project`, checked against the component table only |
| `Models.ComponentTask.Save` | assemble/models1.0.py:87-90 | the same as for `Project`, checked against the task table only |
| `Models.SaveProjectTwice` | assemble/models1.0.py:29-32 | when a project is saved twice, the second save keeps the first slug whenever that slug is non-empty; the first slug is empty only when the name slugifies to "" and "" is free |
| `Models.SaveComponentTwice` | assemble/models1.0.py:59-62 | the same double-save property for a component |
| `Models.SaveTaskTwice` | assemble/models1.0.py:87-90 | the same double-save property for a task |
| `Models.SameNameTwice` | assemble/models1.0.py:19-32 | two projects with the same name get `base` and then `base-1` |
| `Models.SameSlugAcrossTables` | assemble/models1.0.py:53 | a project and a component with the same name both get the bare base slug, because the component query (line 53) looks only at its own table, as the project query (line 23) does |
| `Models.EmptySlugReassigned` | assemble/models1.0.py:29-31 | on an empty table, a name that slugifies to "" first gets the slug ""; the next save replaces it with "-1" and releases "", so a second such record gets "" |
| `Forms.CleanPassword2` | assemble/forms.py:41-49 | raises `password_mismatch` if and only if both passwords are present, non-empty, and different; the error carries the fixed `error_messages` entry and its code; otherwise returns `password2` unchanged |
| `Forms.EqualPasswordsAccepted` | assemble/forms.py:44-49 | equal passwords are accepted, and `password2` is returned |
| `Forms.MissingPasswordAccepted` | assemble/forms.py:44-49 | when either password is missing or empty, no mismatch is raised and `password2` is returned unchanged |
| `Forms.UserCreationForm.RunCleanPassword2` | assemble/forms.py:41-49 | a mismatch adds exactly that one error to `password2` and drops `password2` from the cleaned data; otherwise errors and cleaned data are unchanged |
| `Forms.UserCreationForm.PostClean` | assemble/forms.py:51-59 | the external validator is called if and only if `password2` is present and non-empty (the gate `if password:`, stated as the predicate `Forms.ValidatorInvoked`); whatever it raises is attached to `password2`; if it raises nothing, nothing changes |
| `Forms.MismatchLeavesOneError` | assemble/forms.py:44-55 | for any cleaned data whose two passwords are both given and differ, cleaning ends with exactly one field in error and the external validator is never called |
| `Forms.MatchRunsValidator` | assemble/forms.py:44-59 | for any cleaned data whose two passwords are both given and equal, the external validator is called, and the form has one field in error exactly when the validator raises, otherwise none |
| `Forms.MismatchedPasswords` | assemble/tests/test_forms.py:26-34 | passwords `andwhat13` and `andwhat15` leave exactly one field in error, and the validator is never called |
| `Forms.MatchingPasswords` | assemble/tests/test_forms.py:11-18 | equal passwords that the validator accepts leave no error, and the validator was called |

## Left out

- Rows whose slugs coincide: the tables are sets, and the database's unique constraint keeps two rows from sharing a slug, so releasing a row's old slug on update assumes no other row holds it.
- `slugify` (`django.utils.text`): its internals are not modelled. It is an arbitrary function that the caller passes in.
- `password_validation.validate_password`: it is an arbitrary function of the password. Its second argument, the user instance, is not modelled.
- Persistence through the Django ORM (`super().save()`, cascades, many-to-many `user`): storing a record is modelled only as "the row's previous slug leaves its model's table and the record's slug enters it".
- The database's own uniqueness constraint on `slug`: the model does not raise an integrity error when a record is saved with a duplicate slug set by hand.
- The race between checking a slug and inserting it: it is a concurrency concern of the database.
- `super()._post_clean()` (model-instance construction and validation inside `ModelForm`): it is framework behaviour and is not modelled.
- The meaning of `add_error` (append to the field's error list, remove the field from `cleaned_data`) follows Django's form framework. `Forms.UserCreationForm.AddError` states it but does not derive it from the framework.
- The "this field is required" errors behind the three-error case in assemble/tests/test_forms.py:20-24: the model starts from the cleaned data that field validation left behind.
- `UserCreationForm.save` and `set_password` (password hashing), and the autofocus set-up in `__init__`: these are framework and hashing concerns.
- Translation of the mismatch message by `gettext_lazy`: the message is the untranslated English text.
- `__str__` and `get_absolute_url` (URL routing), together with the views, URL configuration, admin registration and migrations.
- The activity-log/history feature: assemble/urls.py does not route the `history_view` named in assemble/tests/test_urls.py, and no implementation of it is part of this model.
- The 100-character `max_length` on slug fields: the model does not truncate or reject long slugs.
