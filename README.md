# Customer segmentation web application: registration validator and prediction store

This project models the hand-written logic of a Flask application that assigns
customers to K-means clusters. There are two parts.

- **Registration validator** (`validate_registration`). It checks a username, an
  email and a password and returns a list of error messages. The username must be
  an upper-case letter followed by letters and digits. The email must end in
  `@gmail.com`. The password must have at least 8 characters and one of
  `!@#$%^&*`. Each field reports at most one error, in the order username, email,
  password. Module `Registration` in `registration.dfy` models it with an `Error`
  datatype. `Message` maps each error to the exact string the application flashes.
  The regular expression `^[A-Z][a-zA-Z0-9]*$` is modelled as Python's `re.match`
  runs it. A greedy run of letters and digits is followed by `$`, and Python's `$`
  also matches just before a final newline. A lemma proves that this means "well
  formed, or well formed plus one trailing newline". A second lemma proves that on
  the stripped input the caller passes, it means exactly "well formed".
- **Prediction gate and observation store** (`predict`, `data_store`,
  `generate_visualizations`). Module `Ledger` in `ledger.dfy` models the
  module-level list `data_store` as the class `DataStore`, which holds a
  `seq<Record>` field. `Predict` reads the three form fields. A missing field
  reads as 0. Input is rejected unless age > 0, income > 0 and 0 < score <= 100.
  An accepted observation is labelled by the trained model, appended as one record,
  and the charts are built. A rejected observation leaves the store unchanged.
  `GenerateVisualizations` gives no charts exactly when the store is empty or
  rendering raised. The class invariant `Valid` says every stored record passed
  the input check. Module `Charts` in `charts.dfy` models the data each of the four
  charts draws: the three scatter series and the per-cluster counts. It also proves
  how one append changes them.

The trained scaler plus K-means model is the parameter `classify`, an opaque
function from (age, income, score) to a natural-number cluster label. Whether
matplotlib raised while rendering is the parameter `renderingFails`.

## Model

| member | source | states |
|---|---|---|
| `Registration.ValidateRegistration` | app.py:131-151 | at most 3 errors; errors appear in strictly increasing field order (username, email, password), so each field has at most one; the list is empty iff the username matches the pattern, the email ends in `@gmail.com` and the password has at least 8 characters and a special character |
| `Registration.AlnumRunEnd` | app.py:138 | the greedy `[a-zA-Z0-9]*` stops at the first character that is not a letter or digit: everything before it matches the class, the character at it does not |
| `Registration.UsernamePatternMeaning` | app.py:138 | `re.match(r'^[A-Z][a-zA-Z0-9]*$', s)` succeeds iff `s` is an upper-case letter followed by letters and digits, or such a string followed by one final newline |
| `Registration.StrippedUsernamePattern` | app.py:213 | on a username with no whitespace at either end (what `.strip()` produces), the pattern accepts exactly the well-formed usernames |
| `Registration.UsernameErrors` | app.py:136-139 | the capital-letter error is reported iff the username is empty or starts with a non-upper-case character; the letters-and-numbers error iff it starts upper-case and the pattern fails; never both |
| `Registration.EmailErrors` | app.py:142-143 | the Gmail error is reported iff the email does not end in `@gmail.com` (the separate empty test is subsumed) |
| `Registration.PasswordErrors` | app.py:146-149 | the length error is reported iff the password is shorter than 8; the special-character error iff it has at least 8 characters and none of `!@#$%^&*` |
| `Registration.AcceptedRegistration` | app.py:213-219 | for a stripped username, registration passes validation iff the username is well formed, the email ends in `@gmail.com`, and the password is long enough and holds a special character |
| `Registration.MessagesDistinct` | app.py:137-149 | the five messages are pairwise distinct, so the flashed strings determine the errors |
| `Ledger.MissingFieldRejected` | app.py:272-277 | a missing age, income or score field defaults to 0 and the observation is rejected |
| `Ledger.AdmissibleBoundaries` | app.py:276-277 | score 0, score 101, age 0 and income -5 are rejected; 1 and 100 are accepted bounds |
| `Ledger.DataStore.constructor` | app.py:129 | the store starts empty (and so satisfies its invariant) |
| `Ledger.DataStore.GenerateVisualizations` | app.py:298-357 | no charts iff the store is empty or rendering raised; otherwise exactly the four chart names, each mapped to its `.png` file |
| `Ledger.DataStore.Predict` | app.py:270-296 | accepted iff age > 0, income > 0, 0 < score <= 100; on acceptance the cluster is the model's label and the store is the old store plus exactly one record at the end; on rejection the store is unchanged; the invariant that every stored record passed the check is kept; after an acceptance the charts exist iff rendering did not raise |
| `Charts.Scatter` | app.py:306-340 | a scatter series has one dot per stored record, in store order, holding the two chosen attributes and the record's cluster |
| `Charts.ChartsWithinAxes` | app.py:306-340 | every dot drawn from a valid store has positive age and income and a score in 1..100 |
| `Charts.ScatterAppend` | app.py:283 | appending a record adds exactly one dot at the end of each scatter series and leaves the earlier dots unchanged |
| `Charts.CountOfMeaning` | app.py:343-344 | a cluster's bar is at most the number of records, and it is positive iff some record has that cluster |
| `Charts.CountOfAppend` | app.py:283 | appending a record raises its cluster's bar by one and leaves every other bar unchanged |
| `Charts.CountsSumToSize` | app.py:343-344 | if every label is below k, the bars of clusters 0..k-1 add up to the number of stored records |

## Left out

- Fitting the scaler and K-means, predicting a label, and the elbow sweep (clustering.py:16-36, app.py:279-281). These are foreign scikit-learn calls over floating point. The whole scaler-plus-model pipeline is the opaque parameter `classify`.
- Loading and saving models with joblib, and reading and writing CSV files (app.py:120-126, clustering.py:10, 39-43). This is file I/O.
- All MySQL code (`load_user`, `create_database`, `create_tables`, `initialize_database`), the database half of `login` and `register`, and password hashing with werkzeug. These are database plumbing and foreign calls.
- Flask routing, `flash`, templates and Flask-Login sessions, plus `os.makedirs` in `predict`. This is web plumbing and I/O.
- Rendering of the charts with matplotlib/seaborn and writing the PNG files. Only whether rendering raised is modelled (`renderingFails`), together with the data each chart draws.
- generate_dataset.py. It generates random data and writes CSV, and has no logic to state.
- `int()` parsing of the form strings. The form is modelled as a map from field name to an already-parsed integer. A field that fails to parse raises `ValueError` and takes the same rejection path, with the store unchanged, but that path is not modelled separately.
- Registration.IsUpper: `str.isupper` is Unicode-aware; the model uses ASCII `A`-`Z`. A username starting with a non-ASCII upper-case letter gets the letters-and-numbers error in the application but the capital-letter error in the model.
- Registration.Stripped: `str.strip` also removes Unicode whitespace; the model names only ASCII whitespace. Lower-casing of the email by the caller is not modelled: the validator takes the email as passed.
- Concurrent requests appending to `data_store`. The source has no synchronisation, and the model is sequential.
