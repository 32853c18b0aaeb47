/**
 * Tool dispatch and argument normalisation of src/mcp/handlers.ts.
 *
 * A tool call carries a name and an untyped JSON argument. `Handle` turns
 * the argument into a record, rejects unknown tool names, extracts and
 * checks the parameters a handler needs, and yields the client request the
 * handler would issue (the request itself goes to code outside this model).
 */
module Handlers {
  import opened Wrappers
  import opened Strings

  /** A JavaScript number value. */
  datatype Number = Finite(value: real) | NaN | Infinity | NegInfinity

  /** A JSON-like JavaScript value as a tool argument may hold it. */
  datatype JsValue =
    | Undefined
    | Null
    | Bool(b: bool)
    | Num(n: Number)
    | Str(s: string)
    | Arr(items: seq<JsValue>)
    | Obj(fields: map<string, JsValue>)

  type Record = map<string, JsValue>

  /** `record[key]`, `undefined` for a missing key. */
  function Get(args: Record, key: string): (v: JsValue)
    ensures key !in args ==> v.Undefined?
  {
    if key in args then args[key] else Undefined
  }

  /** JavaScript truthiness. */
  predicate Truthy(v: JsValue) {
    match v
    case Undefined => false
    case Null => false
    case Bool(b) => b
    case Num(n) => TruthyNumber(n)
    case Str(s) => s != ""
    case Arr(_) => true
    case Obj(_) => true
  }

  predicate TruthyNumber(n: Number) {
    !n.NaN? && n != Finite(0.0)
  }

  /** JavaScript `a < b` on numbers: every comparison with NaN is false. */
  predicate Less(a: Number, b: Number) {
    match (a, b)
    case (NaN, _) => false
    case (_, NaN) => false
    case (Finite(x), Finite(y)) => x < y
    case (NegInfinity, _) => !b.NegInfinity?
    case (_, Infinity) => !a.Infinity?
    case _ => false
  }

  /**
   * `(args && typeof args === 'object') ? args : {}`. An array is an object
   * too, but it has none of the named parameters, so it reads as an empty record.
   */
  function NormalizeArgs(args: JsValue): (r: Record)
    ensures args.Obj? ==> r == args.fields
    ensures !args.Obj? ==> r == map[]
  {
    match args
    case Obj(fields) => fields
    case _ => map[]
  }

  // ---------------------------------------------------------------------
  // parseInt(value, 10)
  // ---------------------------------------------------------------------

  predicate IsDigit(c: char) {
    '0' <= c <= '9'
  }

  /** The length of the longest all-digit prefix of `s`. */
  function LeadingDigits(s: string): (n: nat)
    ensures n <= |s|
    ensures forall k :: 0 <= k < n ==> IsDigit(s[k])
    ensures n == |s| || !IsDigit(s[n])
  {
    if |s| > 0 && IsDigit(s[0]) then 1 + LeadingDigits(s[1..]) else 0
  }

  /** The value of a string of decimal digits. */
  function DecimalValue(digits: string): nat
    requires forall k :: 0 <= k < |digits| ==> IsDigit(digits[k])
  {
    if |digits| == 0 then 0
    else
      var last := digits[|digits| - 1];
      assert IsDigit(last);
      DecimalValue(digits[..|digits| - 1]) * 10 + (last as int - '0' as int)
  }

  /**
   * `parseInt(s, 10)`: leading whitespace is skipped, one `+` or `-` is
   * read, then the longest run of decimal digits; without a digit the result
   * is NaN. Whatever follows the digits is ignored.
   */
  function ParseInt(s: string): (r: Number)
    ensures r.NaN? || r.Finite?
    ensures r.Finite? ==> r.value == r.value.Floor as real
  {
    ParseSigned(TrimStart(s))
  }

  /** `parseInt` after the leading whitespace: an optional sign, then the digits. */
  function ParseSigned(t: string): (r: Number)
    ensures r.NaN? || r.Finite?
    ensures r.Finite? ==> r.value == r.value.Floor as real
  {
    var negative := |t| > 0 && t[0] == '-';
    var u := if |t| > 0 && (t[0] == '-' || t[0] == '+') then t[1..] else t;
    var n := LeadingDigits(u);
    if n == 0 then NaN
    else
      var magnitude: int := DecimalValue(u[..n]);
      Finite((if negative then -magnitude else magnitude) as real)
  }

  /** The decimal digits of `n`, most significant first. */
  function DecimalString(n: nat): (s: string)
    ensures |s| > 0
    ensures forall k :: 0 <= k < |s| ==> IsDigit(s[k])
  {
    var d := ['0' + (n % 10) as char];
    if n < 10 then d else DecimalString(n / 10) + d
  }

  /** `String(n)` for an integer. */
  function IntString(n: int): string {
    if n < 0 then "-" + DecimalString(-n) else DecimalString(n)
  }

  lemma {:induction false} DecimalValueOfString(n: nat)
    ensures DecimalValue(DecimalString(n)) == n
  {
    var s := DecimalString(n);
    if n >= 10 {
      assert s[..|s| - 1] == DecimalString(n / 10);
      DecimalValueOfString(n / 10);
    }
  }

  lemma {:induction false} LeadingDigitsOfNumber(digits: string, rest: string)
    requires forall k :: 0 <= k < |digits| ==> IsDigit(digits[k])
    requires rest == [] || !IsDigit(rest[0])
    ensures LeadingDigits(digits + rest) == |digits|
  {
    if |digits| > 0 {
      assert (digits + rest)[1..] == digits[1..] + rest;
      LeadingDigitsOfNumber(digits[1..], rest);
    } else {
      assert digits + rest == rest;
    }
  }

  lemma {:induction false} LeadingWhitespaceSkipped(ws: string, t: string)
    requires forall k :: 0 <= k < |ws| ==> IsWhitespace(ws[k])
    requires t != [] && !IsWhitespace(t[0])
    ensures TrimStart(ws + t) == t
  {
    if |ws| > 0 {
      assert (ws + t)[1..] == ws[1..] + t;
      LeadingWhitespaceSkipped(ws[1..], t);
    } else {
      assert ws + t == t;
    }
  }

  /**
   * `parseInt` reads back the decimal rendering of any integer, after any
   * leading whitespace and before any text that does not start with a digit.
   */
  lemma ParseIntReadsIntString(ws: string, n: int, rest: string)
    requires forall k :: 0 <= k < |ws| ==> IsWhitespace(ws[k])
    requires rest == [] || !IsDigit(rest[0])
    ensures ParseInt(ws + IntString(n) + rest) == Finite(n as real)
  {
    var t := IntString(n) + rest;
    assert ws + IntString(n) + rest == ws + t;
    assert t[0] == '-' || IsDigit(t[0]);
    LeadingWhitespaceSkipped(ws, t);
    assert ParseInt(ws + t) == ParseSigned(t);
    ParseSignedIntString(n, rest);
  }

  lemma ParseSignedIntString(n: int, rest: string)
    requires rest == [] || !IsDigit(rest[0])
    ensures ParseSigned(IntString(n) + rest) == Finite(n as real)
  {
    if n < 0 {
      ParseSignedNegative(-n, rest);
    } else {
      ParseSignedNonNegative(n, rest);
    }
  }

  lemma ParseSignedNonNegative(m: nat, rest: string)
    requires rest == [] || !IsDigit(rest[0])
    ensures ParseSigned(DecimalString(m) + rest) == Finite(m as real)
  {
    var u := DecimalString(m) + rest;
    ParseDigitsPrefix(m, rest);
    assert IsDigit(u[0]);
  }

  lemma ParseSignedNegative(m: nat, rest: string)
    requires m > 0 && (rest == [] || !IsDigit(rest[0]))
    ensures ParseSigned("-" + DecimalString(m) + rest) == Finite(-(m as real))
  {
    var u := DecimalString(m) + rest;
    var t := "-" + DecimalString(m) + rest;
    assert t == ['-'] + u;
    assert t[0] == '-' && t[1..] == u;
    ParseDigitsPrefix(m, rest);
  }

  /** The digits of `m` followed by a non-digit read back as `m`. */
  lemma ParseDigitsPrefix(m: nat, rest: string)
    requires rest == [] || !IsDigit(rest[0])
    ensures var u := DecimalString(m) + rest;
      LeadingDigits(u) == |DecimalString(m)| && DecimalValue(u[..LeadingDigits(u)]) == m
  {
    var digits := DecimalString(m);
    var u := digits + rest;
    LeadingDigitsOfNumber(digits, rest);
    assert u[..|digits|] == digits;
    DecimalValueOfString(m);
  }

  /** A string without any digit does not parse. */
  lemma ParseIntWithoutDigits(s: string)
    requires forall k :: 0 <= k < |s| ==> !IsDigit(s[k])
    ensures ParseInt(s) == NaN
  {
    var t := TrimStart(s);
    assert forall k :: 0 <= k < |t| ==> !IsDigit(t[k]) by {
      forall k | 0 <= k < |t| ensures !IsDigit(t[k]) {
        assert t[k] == s[LeadingWhitespace(s) + k];
      }
    }
  }

  // ---------------------------------------------------------------------
  // getNumberParam / getStringParam (handlers.ts:448-503)
  // ---------------------------------------------------------------------

  /** The number `args[key]` yields before clamping, or `None` when the default applies. */
  function ReadNumber(v: JsValue): (r: Option<Number>)
    ensures r.Some? ==> v.Num? || v.Str?
  {
    match v
    case Num(n) => Some(n)
    case Str(s) => if ParseInt(s).NaN? then None else Some(ParseInt(s))
    case _ => None
  }

  /** The two `if`s that raise a number to `min` and then lower it to `max`. */
  function Clamp(n: Number, min: Option<int>, max: Option<int>): Number {
    var raised := if min.Some? && Less(n, Finite(min.value as real)) then Finite(min.value as real) else n;
    if max.Some? && Less(Finite(max.value as real), raised) then Finite(max.value as real) else raised
  }

  /** What `getNumberParam(args, key, defaultValue, min, max)` returns. */
  function NumberParam(args: Record, key: string, defaultValue: Option<Number>,
                       min: Option<int>, max: Option<int>): (r: Option<Number>)
    ensures defaultValue.Some? ==> r.Some?
  {
    match ReadNumber(Get(args, key))
    case None => defaultValue
    case Some(n) => Some(Clamp(n, min, max))
  }

  /** `getNumberParam`, step by step as the source reassigns `num`. */
  method GetNumberParam(args: Record, key: string, defaultValue: Option<Number>,
                        min: Option<int>, max: Option<int>) returns (r: Option<Number>)
    ensures r == NumberParam(args, key, defaultValue, min, max)
  {
    var value := Get(args, key);
    if value.Undefined? || value.Null? {
      return defaultValue;
    }
    var num: Number;
    if value.Num? {
      num := value.n;
    } else if value.Str? {
      num := ParseInt(value.s);
      if num.NaN? {
        return defaultValue;
      }
    } else {
      return defaultValue;
    }
    if min.Some? && Less(num, Finite(min.value as real)) {
      num := Finite(min.value as real);
    }
    if max.Some? && Less(Finite(max.value as real), num) {
      num := Finite(max.value as real);
    }
    return Some(num);
  }

  /**
   * The default is returned for a missing or null value, for a value that
   * is neither a number nor a string, and for a string `parseInt` cannot read.
   */
  lemma NumberParamDefaults(args: Record, key: string, defaultValue: Option<Number>,
                            min: Option<int>, max: Option<int>)
    requires var v := Get(args, key); !v.Num? && (v.Str? ==> ParseInt(v.s).NaN?)
    ensures NumberParam(args, key, defaultValue, min, max) == defaultValue
  {
  }

  /** For `min <= max`, every number read other than NaN ends up inside `[min, max]`. */
  lemma NumberParamInRange(args: Record, key: string, defaultValue: Option<Number>, min: int, max: int)
    requires min <= max
    requires ReadNumber(Get(args, key)).Some? && !ReadNumber(Get(args, key)).value.NaN?
    ensures var r := NumberParam(args, key, defaultValue, Some(min), Some(max));
      r.Some? && r.value.Finite? && min as real <= r.value.value <= max as real
  {
  }

  /** A finite number already inside the bounds that apply is returned unchanged. */
  lemma NumberParamUnchangedInRange(args: Record, key: string, defaultValue: Option<Number>,
                                    min: Option<int>, max: Option<int>)
    requires ReadNumber(Get(args, key)).Some? && ReadNumber(Get(args, key)).value.Finite?
    requires var x := ReadNumber(Get(args, key)).value.value;
      (min.Some? ==> min.value as real <= x) && (max.Some? ==> x <= max.value as real)
    ensures NumberParam(args, key, defaultValue, min, max) == ReadNumber(Get(args, key))
  {
  }

  /** A NaN number value escapes both bounds: neither comparison holds. */
  lemma NumberParamNaNPassesThrough(args: Record, key: string, defaultValue: Option<Number>,
                                    min: Option<int>, max: Option<int>)
    requires Get(args, key) == Num(NaN)
    ensures NumberParam(args, key, defaultValue, min, max) == Some(NaN)
  {
  }

  /** `getStringParam`: the trimmed value when it is a non-blank string, otherwise the default. */
  function StringParam(args: Record, key: string, defaultValue: string): (r: string)
    ensures r == defaultValue || (r != "" && Trim(r) == r)
    ensures Get(args, key).Str? && Trim(Get(args, key).s) != "" ==> r == Trim(Get(args, key).s)
    ensures !(Get(args, key).Str? && Trim(Get(args, key).s) != "") ==> r == defaultValue
  {
    var value := Get(args, key);
    if value.Str? && Trim(value.s) != "" then
      TrimIdempotent(value.s);
      Trim(value.s)
    else defaultValue
  }

  // ---------------------------------------------------------------------
  // Dispatch (handlers.ts:12-245) and the per-tool guards
  // ---------------------------------------------------------------------

  /** Every tool name the `switch` of `handle` accepts. */
  const ToolNames: set<string> := {
    "list_recent_activities", "get_activity_details", "get_health_metrics", "get_sleep_data",
    "get_body_composition", "get_devices", "get_user_profile", "get_training_status", "get_steps",
    "get_heart_rate", "get_hydration", "get_workouts", "get_activity_splits", "get_stress_data",
    "get_body_battery", "get_hrv_data", "get_respiration_data", "get_spo2_data", "get_workout_by_id",
    "download_workout", "create_workout", "update_workout", "delete_workout", "schedule_workout",
    "upload_activity", "create_manual_activity", "set_activity_name", "set_activity_type",
    "delete_activity", "download_activity", "get_device_last_used", "get_device_settings",
    "get_all_day_stress", "get_floors", "get_intensity_minutes", "get_max_metrics",
    "get_training_readiness", "get_endurance_score", "get_fitness_age", "get_weigh_ins",
    "add_weigh_in", "delete_weigh_in", "get_blood_pressure", "set_blood_pressure",
    "delete_blood_pressure", "get_activity_weather", "get_activity_hr_zones", "get_activity_gear",
    "get_activity_exercise_sets", "get_goals", "get_adhoc_challenges", "get_badge_challenges",
    "get_earned_badges", "get_personal_records", "get_race_predictions", "get_gear",
    "get_gear_defaults", "get_gear_stats", "link_gear_to_activity", "get_progress_summary",
    "get_daily_summary", "get_user_summary", "get_steps_data", "get_daily_steps",
    "get_activities_by_date", "get_activity_typed_splits", "get_rhr_day", "get_hill_score",
    "get_all_day_events", "get_body_battery_events", "add_hydration_data", "get_available_badges",
    "get_in_progress_badges", "get_available_badge_challenges", "get_non_completed_badge_challenges",
    "get_in_progress_virtual_challenges", "remove_gear_from_activity", "get_gear_activities",
    "get_training_plans", "get_training_plan_by_id", "get_menstrual_data", "get_pregnancy_summary",
    "request_reload", "get_activity_types", "get_primary_training_device", "count_activities",
    "get_fitness_stats"
  }

  /** The tools whose only parameter is the required numeric `activityId`. */
  const ActivityIdTools: set<string> := {
    "get_activity_details", "get_activity_splits", "delete_activity", "get_activity_weather",
    "get_activity_hr_zones", "get_activity_gear", "get_activity_exercise_sets",
    "get_activity_typed_splits"
  }

  /** The tools whose only parameter is a required string, with that parameter's name. */
  const StringIdTools: map<string, string> := map[
    "get_workout_by_id" := "workoutId",
    "download_workout" := "workoutId",
    "delete_workout" := "workoutId",
    "upload_activity" := "filePath",
    "get_device_settings" := "deviceId",
    "delete_weigh_in" := "weighInId",
    "delete_blood_pressure" := "samplePk",
    "get_gear_stats" := "gearUUID",
    "get_user_summary" := "date",
    "get_steps_data" := "date",
    "get_rhr_day" := "date",
    "get_all_day_events" := "date",
    "get_body_battery_events" := "date",
    "get_training_plan_by_id" := "planId",
    "get_menstrual_data" := "date",
    "request_reload" := "date"
  ]

  /** The tools whose only parameters are the required `startDate` and `endDate`. */
  const DateRangeTools: set<string> := {"get_weigh_ins", "get_blood_pressure", "get_daily_steps"}

  /** The fields `update_workout` may forward. */
  const UpdatableFields: set<string> := {"workoutName", "description", "workoutSegments"}

  /** The request a handler sends to the Garmin client. */
  datatype ClientCall =
    | GetRecentActivities(limit: Number, start: Number)
    | ByActivityId(tool: string, activityId: Number)
    | ByStringId(tool: string, id: string)
    | ByDateRange(tool: string, startDate: string, endDate: string)
    | GetBodyBattery(startDate: string, endDate: string)
    | CreateWorkout(workoutName: string, sportType: string, description: string, workoutSegments: seq<JsValue>)
    | UpdateWorkout(workoutId: string, updates: Record)
    | ScheduleWorkout(workoutId: string, date: string)
    | CreateManualActivity(activityName: string, activityType: string, startTime: string,
                           duration: Number, distance: Number, calories: Number, description: string)
    | SetActivityName(activityId: Number, name: string)
    | SetActivityType(activityId: Number, typeKey: string, typeId: Option<Number>)
    | DownloadActivity(activityId: Number, format: string)
    | GearLink(tool: string, gearUUID: string, activityId: Number)
    /** A handler whose own parameter handling is not part of this model. */
    | Delegated(tool: string, args: Record)

  /** Why `handle` throws. */
  datatype HandleError = UnknownTool(name: string) | InvalidParameters(message: string)

  /** The message of the thrown `Error`. */
  function ErrorMessage(e: HandleError): string {
    match e
    case UnknownTool(name) => "Unknown tool: " + name
    case InvalidParameters(message) => message
  }

  function Required(key: string): HandleError {
    InvalidParameters("Parameter \"" + key + "\" is required")
  }

  /** The `updates` object of `update_workout`: each updatable field that is truthy. */
  function WorkoutUpdates(args: Record): (updates: Record)
    ensures updates.Keys <= UpdatableFields
    ensures forall k :: k in UpdatableFields ==> (k in updates <==> Truthy(Get(args, k)))
    ensures forall k :: k in updates ==> updates[k] == Get(args, k)
  {
    map k | k in UpdatableFields && Truthy(Get(args, k)) :: args[k]
  }

  /** `handleUpdateWorkout` filling `updates` field by field. */
  method BuildWorkoutUpdates(args: Record) returns (updates: Record)
    ensures updates == WorkoutUpdates(args)
  {
    updates := map[];
    if Truthy(Get(args, "workoutName")) {
      updates := updates["workoutName" := args["workoutName"]];
    }
    if Truthy(Get(args, "description")) {
      updates := updates["description" := args["description"]];
    }
    if Truthy(Get(args, "workoutSegments")) {
      updates := updates["workoutSegments" := args["workoutSegments"]];
    }
  }

  /** `handleListRecentActivities`. */
  function HandleListRecentActivities(args: Record): (r: Result<ClientCall, HandleError>)
    ensures r.Ok? && r.value.GetRecentActivities?
  {
    var limit := NumberParam(args, "limit", Some(Finite(10.0)), Some(1), Some(100));
    var start := NumberParam(args, "start", Some(Finite(0.0)), Some(0), None);
    Ok(GetRecentActivities(limit.value, start.value))
  }

  /** A handler whose only parameter is the required numeric `activityId`. */
  function HandleByActivityId(name: string, args: Record): (r: Result<ClientCall, HandleError>)
    ensures r.Err? <==> NumberParam(args, "activityId", None, None, None).None?
    ensures r.Err? ==> r.error == Required("activityId")
  {
    var activityId := NumberParam(args, "activityId", None, None, None);
    if activityId.None? then Err(Required("activityId")) else Ok(ByActivityId(name, activityId.value))
  }

  /** A handler whose only parameter is the required string `key`. */
  function HandleByStringId(name: string, key: string, args: Record): (r: Result<ClientCall, HandleError>)
    ensures r.Err? <==> StringParam(args, key, "") == ""
    ensures r.Err? ==> r.error == Required(key)
    ensures r.Ok? ==> r.value == ByStringId(name, StringParam(args, key, ""))
  {
    var id := StringParam(args, key, "");
    if id == "" then Err(Required(key)) else Ok(ByStringId(name, id))
  }

  /** `handleGetWeighIns`, `handleGetBloodPressure` and `handleGetDailySteps`: both dates are required. */
  function HandleDateRange(name: string, args: Record): (r: Result<ClientCall, HandleError>)
    ensures r.Err? <==> StringParam(args, "startDate", "") == "" || StringParam(args, "endDate", "") == ""
    ensures r.Err? ==> r.error == InvalidParameters("Parameters \"startDate\" and \"endDate\" are required")
    ensures r.Ok? ==> r.value == ByDateRange(name, StringParam(args, "startDate", ""), StringParam(args, "endDate", ""))
  {
    var startDate := StringParam(args, "startDate", "");
    var endDate := StringParam(args, "endDate", "");
    if startDate == "" || endDate == "" then Err(InvalidParameters("Parameters \"startDate\" and \"endDate\" are required"))
    else Ok(ByDateRange(name, startDate, endDate))
  }

  /** `handleGetBodyBattery`: the end date defaults to the start date, which defaults to today. */
  function HandleGetBodyBattery(args: Record, today: string): (r: Result<ClientCall, HandleError>)
    ensures r.Ok? && r.value.GetBodyBattery?
    ensures StringParam(args, "startDate", "") == "" ==> r.value.startDate == today
    ensures StringParam(args, "startDate", "") != "" ==> r.value.startDate == StringParam(args, "startDate", "")
    ensures StringParam(args, "endDate", "") == "" ==> r.value.endDate == r.value.startDate
    ensures StringParam(args, "endDate", "") != "" ==> r.value.endDate == StringParam(args, "endDate", "")
    ensures Get(args, "startDate").Undefined? && Get(args, "endDate").Undefined? ==>
      r.value == GetBodyBattery(today, today)
  {
    var startDate := StringParam(args, "startDate", today);
    Ok(GetBodyBattery(startDate, StringParam(args, "endDate", startDate)))
  }

  /** `handleCreateWorkout`: a name and an array of segments are required. */
  function HandleCreateWorkout(args: Record): (r: Result<ClientCall, HandleError>)
    ensures r.Err? <==> StringParam(args, "workoutName", "") == "" || !Get(args, "workoutSegments").Arr?
    ensures r.Err? ==> r.error.InvalidParameters?
  {
    var workoutName := StringParam(args, "workoutName", "");
    var sportType := StringParam(args, "sportType", "running");
    var description := StringParam(args, "description", "");
    var segments := Get(args, "workoutSegments");
    if workoutName == "" then Err(Required("workoutName"))
    else if !segments.Arr? then Err(InvalidParameters("Parameter \"workoutSegments\" is required and must be an array"))
    else Ok(CreateWorkout(workoutName, sportType, description, segments.items))
  }

  /** `handleUpdateWorkout`. */
  function HandleUpdateWorkout(args: Record): (r: Result<ClientCall, HandleError>)
    ensures r.Err? <==> StringParam(args, "workoutId", "") == ""
    ensures r.Err? ==> r.error == Required("workoutId")
  {
    var workoutId := StringParam(args, "workoutId", "");
    if workoutId == "" then Err(Required("workoutId")) else Ok(UpdateWorkout(workoutId, WorkoutUpdates(args)))
  }

  /** `handleScheduleWorkout`: the workout id is checked before the date. */
  function HandleScheduleWorkout(args: Record): (r: Result<ClientCall, HandleError>)
    ensures r.Err? <==> StringParam(args, "workoutId", "") == "" || StringParam(args, "date", "") == ""
    ensures r.Err? ==> r.error == if StringParam(args, "workoutId", "") == "" then Required("workoutId") else Required("date")
  {
    var workoutId := StringParam(args, "workoutId", "");
    var date := StringParam(args, "date", "");
    if workoutId == "" then Err(Required("workoutId"))
    else if date == "" then Err(Required("date"))
    else Ok(ScheduleWorkout(workoutId, date))
  }

  /** `handleCreateManualActivity`: a name, a type, a start time and a non-zero duration are required. */
  function HandleCreateManualActivity(args: Record): (r: Result<ClientCall, HandleError>)
    ensures r.Err? <==>
      || StringParam(args, "activityName", "") == "" || StringParam(args, "activityType", "") == ""
      || StringParam(args, "startTime", "") == ""
      || !TruthyNumber(NumberParam(args, "duration", Some(Finite(0.0)), None, None).value)
    ensures r.Err? ==> r.error.InvalidParameters?
    ensures r.Ok? ==>
      && r.value.CreateManualActivity? && TruthyNumber(r.value.duration)
      && r.value.activityName != "" && r.value.activityType != "" && r.value.startTime != ""
  {
    var activityName := StringParam(args, "activityName", "");
    var activityType := StringParam(args, "activityType", "");
    var startTime := StringParam(args, "startTime", "");
    var duration := NumberParam(args, "duration", Some(Finite(0.0)), None, None).value;
    var distance := NumberParam(args, "distance", Some(Finite(0.0)), None, None).value;
    var calories := NumberParam(args, "calories", Some(Finite(0.0)), None, None).value;
    var description := StringParam(args, "description", "");
    if activityName == "" || activityType == "" || startTime == "" || !TruthyNumber(duration) then
      Err(InvalidParameters("Parameters \"activityName\", \"activityType\", \"startTime\", and \"duration\" are required"))
    else
      Ok(CreateManualActivity(activityName, activityType, startTime, duration, distance, calories, description))
  }

  /** `handleSetActivityName`. */
  function HandleSetActivityName(args: Record): (r: Result<ClientCall, HandleError>)
    ensures r.Err? <==> NumberParam(args, "activityId", None, None, None).None? || StringParam(args, "name", "") == ""
    ensures r.Err? ==> r.error.InvalidParameters?
  {
    var activityId := NumberParam(args, "activityId", None, None, None);
    var newName := StringParam(args, "name", "");
    if activityId.None? || newName == "" then Err(InvalidParameters("Parameters \"activityId\" and \"name\" are required"))
    else Ok(SetActivityName(activityId.value, newName))
  }

  /** `handleSetActivityType`: `typeId` is optional. */
  function HandleSetActivityType(args: Record): (r: Result<ClientCall, HandleError>)
    ensures r.Err? <==> NumberParam(args, "activityId", None, None, None).None? || StringParam(args, "typeKey", "") == ""
    ensures r.Err? ==> r.error.InvalidParameters?
  {
    var activityId := NumberParam(args, "activityId", None, None, None);
    var typeKey := StringParam(args, "typeKey", "");
    var typeId := NumberParam(args, "typeId", None, None, None);
    if activityId.None? || typeKey == "" then Err(InvalidParameters("Parameters \"activityId\" and \"typeKey\" are required"))
    else Ok(SetActivityType(activityId.value, typeKey, typeId))
  }

  /** `handleDownloadActivity`: the format defaults to `fit`. */
  function HandleDownloadActivity(args: Record): (r: Result<ClientCall, HandleError>)
    ensures r.Err? <==> NumberParam(args, "activityId", None, None, None).None?
    ensures r.Err? ==> r.error == Required("activityId")
    ensures r.Ok? ==> r.value.DownloadActivity? && (Get(args, "format").Undefined? ==> r.value.format == "fit")
  {
    var activityId := NumberParam(args, "activityId", None, None, None);
    var format := StringParam(args, "format", "fit");
    if activityId.None? then Err(Required("activityId")) else Ok(DownloadActivity(activityId.value, format))
  }

  /** `link_gear_to_activity` and `remove_gear_from_activity`: a gear UUID and an activity id are required. */
  function HandleGearLink(name: string, args: Record): (r: Result<ClientCall, HandleError>)
    ensures r.Err? <==> StringParam(args, "gearUUID", "") == "" || NumberParam(args, "activityId", None, None, None).None?
    ensures r.Err? ==> r.error.InvalidParameters?
  {
    var gearUUID := StringParam(args, "gearUUID", "");
    var activityId := NumberParam(args, "activityId", None, None, None);
    if gearUUID == "" || activityId.None? then Err(InvalidParameters("Parameters \"gearUUID\" and \"activityId\" are required"))
    else Ok(GearLink(name, gearUUID, activityId.value))
  }

  /** The handler for a known tool name, on the normalised arguments; `today` is `getTodayDate()`. */
  function Dispatch(name: string, args: Record, today: string): (r: Result<ClientCall, HandleError>)
    requires name in ToolNames
    ensures r.Err? ==> r.error.InvalidParameters?
  {
    if name == "list_recent_activities" then HandleListRecentActivities(args)
    else if name in ActivityIdTools then HandleByActivityId(name, args)
    else if name in StringIdTools then HandleByStringId(name, StringIdTools[name], args)
    else if name in DateRangeTools then HandleDateRange(name, args)
    else if name == "get_body_battery" then HandleGetBodyBattery(args, today)
    else if name == "create_workout" then HandleCreateWorkout(args)
    else if name == "update_workout" then HandleUpdateWorkout(args)
    else if name == "schedule_workout" then HandleScheduleWorkout(args)
    else if name == "create_manual_activity" then HandleCreateManualActivity(args)
    else if name == "set_activity_name" then HandleSetActivityName(args)
    else if name == "set_activity_type" then HandleSetActivityType(args)
    else if name == "download_activity" then HandleDownloadActivity(args)
    else if name == "link_gear_to_activity" || name == "remove_gear_from_activity" then HandleGearLink(name, args)
    else Ok(Delegated(name, args))
  }

  /** `ToolHandler.handle`: normalise the arguments, then run the handler the name selects. */
  function Handle(name: string, args: JsValue, today: string): (r: Result<ClientCall, HandleError>)
    ensures name !in ToolNames <==> r == Err(UnknownTool(name))
    ensures r.Err? && r.error.UnknownTool? ==> ErrorMessage(r.error) == "Unknown tool: " + name
  {
    if name in ToolNames then Dispatch(name, NormalizeArgs(args), today)
    else Err(UnknownTool(name))
  }

  /** `undefined`, `null`, and any argument that is not an object behave as `{}`. */
  lemma HandleNormalizesArgs(name: string, args: JsValue, today: string)
    requires !args.Obj?
    ensures Handle(name, args, today) == Handle(name, Obj(map[]), today)
  {
  }

  /** `list_recent_activities` asks for 1 to 100 activities (10 by default), starting at 0 or later. */
  lemma ListRecentActivitiesParameters(args: JsValue, today: string)
    ensures var r := Handle("list_recent_activities", args, today);
      && r.Ok? && r.value.GetRecentActivities?
      && (r.value.limit.Finite? || r.value.limit.NaN?)
      && (r.value.limit.Finite? ==> 1.0 <= r.value.limit.value <= 100.0)
      && (r.value.start.Finite? ==> 0.0 <= r.value.start.value)
      && (Get(NormalizeArgs(args), "limit").Undefined? ==> r.value.limit == Finite(10.0))
      && (Get(NormalizeArgs(args), "start").Undefined? ==> r.value.start == Finite(0.0))
  {
    var a := NormalizeArgs(args);
    ListRecentActivitiesIsTool();
    var limit := NumberParam(a, "limit", Some(Finite(10.0)), Some(1), Some(100));
    var start := NumberParam(a, "start", Some(Finite(0.0)), Some(0), None);
    assert Handle("list_recent_activities", args, today) == Ok(GetRecentActivities(limit.value, start.value));
  }

  lemma ListRecentActivitiesIsTool()
    ensures "list_recent_activities" in ToolNames
  {
  }

  /** A tool needing an activity id fails, before any request, when the id is missing or unreadable. */
  lemma ActivityIdRequired(name: string, args: JsValue, today: string)
    requires name in ActivityIdTools || name == "download_activity"
    requires NumberParam(NormalizeArgs(args), "activityId", None, None, None).None?
    ensures Handle(name, args, today) == Err(Required("activityId"))
  {
    if name in ActivityIdTools {
      ActivityIdToolFacts(name);
    } else {
      DownloadActivityFacts();
    }
  }

  lemma ActivityIdToolFacts(name: string)
    requires name in ActivityIdTools
    ensures name in ToolNames && name != "list_recent_activities"
  {
  }

  lemma DownloadActivityFacts()
    ensures "download_activity" in ToolNames && "download_activity" !in ActivityIdTools
    ensures "download_activity" !in StringIdTools
  {
  }

  /** A workout tool fails, before any request, when `workoutId` is missing or blank. */
  lemma WorkoutIdRequired(name: string, args: JsValue, today: string)
    requires name in {"get_workout_by_id", "download_workout", "delete_workout", "update_workout", "schedule_workout"}
    requires StringParam(NormalizeArgs(args), "workoutId", "") == ""
    ensures Handle(name, args, today) == Err(Required("workoutId"))
  {
    WorkoutToolFacts(name);
  }

  lemma WorkoutToolFacts(name: string)
    requires name in {"get_workout_by_id", "download_workout", "delete_workout", "update_workout", "schedule_workout"}
    ensures name in ToolNames && name != "list_recent_activities" && name !in ActivityIdTools
    ensures name in StringIdTools ==> StringIdTools[name] == "workoutId"
    ensures name !in StringIdTools ==> name == "update_workout" || name == "schedule_workout"
  {
  }

  /** A tool whose only parameter is a required string fails, before any request, when that string is missing or blank. */
  lemma StringIdRequired(name: string, args: JsValue, today: string)
    requires name in StringIdTools
    requires StringParam(NormalizeArgs(args), StringIdTools[name], "") == ""
    ensures Handle(name, args, today) == Err(Required(StringIdTools[name]))
  {
    StringIdToolFacts(name);
  }

  lemma StringIdToolFacts(name: string)
    requires name in StringIdTools
    ensures name in ToolNames && name != "list_recent_activities" && name !in ActivityIdTools
  {
    StringIdToolsAreTools(name);
    StringIdToolsTakeNoActivityId(name);
  }

  lemma StringIdToolsTakeNoActivityId(name: string)
    requires name in StringIdTools
    ensures name != "list_recent_activities" && name !in ActivityIdTools
  {
  }

  lemma StringIdToolsAreTools(name: string)
    requires name in StringIdTools
    ensures name in ToolNames
  {
  }

  /** `get_weigh_ins`, `get_blood_pressure` and `get_daily_steps` fail, before any request, without both dates. */
  lemma DateRangeRequired(name: string, args: JsValue, today: string)
    requires name in DateRangeTools
    requires StringParam(NormalizeArgs(args), "startDate", "") == "" || StringParam(NormalizeArgs(args), "endDate", "") == ""
    ensures Handle(name, args, today).Err? && Handle(name, args, today).error.InvalidParameters?
  {
    DateRangeToolFacts(name);
  }

  lemma DateRangeToolFacts(name: string)
    requires name in DateRangeTools
    ensures name in ToolNames && name != "list_recent_activities" && name !in ActivityIdTools
    ensures name !in StringIdTools
  {
  }

  /** `update_workout` forwards exactly the truthy updatable fields, with their values. */
  lemma UpdateWorkoutForwardsTruthyFields(args: Record)
    requires StringParam(args, "workoutId", "") != ""
    ensures var r := HandleUpdateWorkout(args);
      && r.Ok? && r.value.UpdateWorkout? && r.value.workoutId == StringParam(args, "workoutId", "")
      && (forall k :: k in r.value.updates <==> k in UpdatableFields && Truthy(Get(args, k)))
      && (forall k :: k in r.value.updates ==> r.value.updates[k] == Get(args, k))
  {
  }

  /** The `update_workout` case of the `switch` runs `handleUpdateWorkout` on the normalised arguments. */
  lemma UpdateWorkoutRoute(args: JsValue, today: string)
    ensures Handle("update_workout", args, today) == HandleUpdateWorkout(NormalizeArgs(args))
  {
    UpdateWorkoutFacts();
  }

  lemma UpdateWorkoutFacts()
    ensures "update_workout" in ToolNames && "update_workout" !in ActivityIdTools
    ensures "update_workout" !in StringIdTools
  {
  }

  /** The response of `list_recent_activities`. */
  datatype ListResponse = ListResponse(success: bool, count: nat, data: seq<JsValue>)

  /** `Array.isArray(activities) ? activities : []`, reported with its length. */
  function ListRecentActivitiesResponse(activities: JsValue): (r: ListResponse)
    ensures r.success && r.count == |r.data|
    ensures activities.Arr? ==> r.data == activities.items
    ensures !activities.Arr? ==> r.data == []
  {
    var list := if activities.Arr? then activities.items else [];
    ListResponse(true, |list|, list)
  }
}
