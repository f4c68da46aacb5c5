# Lineage event record

A verified Dafny model of `LineageEventImpl`, the data collector's audit record.
An event records one of two things:

- a pipeline milestone: START or STOP;
- a data-entity access: ENTITY_READ or ENTITY_WRITE.

An event keeps four stores:

- the general attributes: event type, pipeline title, user, start time, collector id, permalink, stage name, timestamp and pipeline id;
- the type-specific attributes: the description, for milestones;
- free-form properties: the pipeline version and the pipeline's runtime parameters;
- a list of tags.

The constructor fills these stores. The rest of the class offers:

- getters over the stores, including the parse-backs of the event type and the two times;
- three setters;
- a validator that lists the required specific attributes that are missing;
- a text dump.

Layout:

- `java_lang.dfy` (module `JavaLang`) holds the Java behaviour the class relies on:
  - nullable references;
  - the exceptions it can throw;
  - the `(String)` and `(List)` casts;
  - `String.valueOf`;
  - `Long.toString` and `Long.parseLong` on 64-bit values.
- `lineage_types.dfy` (module `LineageTypes`) holds the enumerations the event is keyed by.
- `redaction.dfy` (module `Redaction`) holds the `.*password.*` key pattern and the asterisk mask.
- `validation.dfy` (module `Validation`) holds the set of missing attributes.
- `lineage_event.dfy` (module `LineageEventImpl`) holds the class `LineageEvent`.

How construction is modelled:

- A Java exception is a `Failure` of a `Result`.
- The constructor becomes the static factory `LineageEvent.Create`. It runs the steps that can throw in the source's order (null type, identity casts, labels cast, parameters) on local values. The general attributes, which cannot throw once the type is non-null, are computed after the identity they include. It commits them to a new object only when no step threw, because a Java constructor that throws leaves no object behind.
- `Build` is the state a successful construction leaves. The `Constructed…` lemmas state what that state holds.
- The parameter loop `StoreParameters` walks the keys in an order of the map's choosing. So its error result is any member of the set of exceptions the parameters can raise.

Behaviour of the code worth noting:

- A null event type throws NullPointerException at `type.toString()` (line 65), before anything else is stored.
- Tags are null after construction when the metadata maps the labels key to null, because the `(List)` cast at line 90 lets null through. `ConstructedTags` states exactly when tags are null, and `ToText` states that the dump then throws.
- Masking a parameter under a sensitive key (line 98) needs a String value. A null value throws NullPointerException at `.length()`. Any other non-String value throws ClassCastException at the cast.
- The catch block of `missingSpecificAttributes` calls `getEventType()` again. That call throws the same exception, so the method passes on the accessor's own exception. It never throws the formatted IllegalArgumentException.

## Model

Sources are paths from the repository root.

| member | source | states |
|---|---|---|
| LineageEventImpl.LineageEvent.Create | container/src/main/java/com/streamsets/datacollector/lineage/LineageEventImpl.java:48-104 | construction succeeds exactly when the event type is non-null (a null type throws NullPointerException first) and the identity casts, the labels cast and every parameter's redaction succeed; on success the new object's state is `Build` of the arguments and satisfies `Valid` (all mandatory general attributes, type and times parse back); on failure the exception is one the steps can raise |
| LineageEventImpl.ConstructedGeneralAttributes | container/src/main/java/com/streamsets/datacollector/lineage/LineageEventImpl.java:62-72 | the general attributes are exactly the nine mandatory ones (never PIPELINE_LABELS); title, user, collector id, permalink and stage name are the arguments; the stored type and start time parse back to the arguments and the timestamp to the clock reading |
| LineageEventImpl.ResolveIdentity | container/src/main/java/com/streamsets/datacollector/lineage/LineageEventImpl.java:81-87 | without a `dpm.pipeline.id` key (or with null metadata) the local id and version are used; with it both come from the metadata, and a non-String value of either key throws ClassCastException |
| LineageEventImpl.IdentityNeverMixed | container/src/main/java/com/streamsets/datacollector/lineage/LineageEventImpl.java:80-87 | id and version always come from the same source: both local or both from the metadata |
| LineageEventImpl.ConstructedIdentityPair | container/src/main/java/com/streamsets/datacollector/lineage/LineageEventImpl.java:81-87 | after construction PIPELINE_ID and the properties entry under the version label are the metadata pair when `dpm.pipeline.id` is present and the local pair otherwise (when no parameter overwrites the version label) |
| LineageEventImpl.InitialSpecific | container/src/main/java/com/streamsets/datacollector/lineage/LineageEventImpl.java:74-78 | DESCRIPTION is present exactly for START and STOP, holding the description as given; no other specific attribute is set |
| LineageEventImpl.ConstructedDescription | container/src/main/java/com/streamsets/datacollector/lineage/LineageEventImpl.java:63-78 | the constructed specific attributes hold DESCRIPTION (even when null or empty) exactly for START and STOP, and nothing else |
| LineageEventImpl.ExtractTags | container/src/main/java/com/streamsets/datacollector/lineage/LineageEventImpl.java:88-93 | tags are an empty list when the labels key is absent; otherwise the cast succeeds exactly for null or a list, a non-null result is exactly that list, and a null result comes only from a null entry |
| LineageEventImpl.ConstructedTags | container/src/main/java/com/streamsets/datacollector/lineage/LineageEventImpl.java:88-93 | after construction the tags are the labels entry when present, an empty list otherwise, and null exactly when the metadata maps the labels key to null |
| Redaction.RedactParameter | container/src/main/java/com/streamsets/datacollector/lineage/LineageEventImpl.java:96-101 | under a sensitive key a String value becomes asterisks of its length, null throws NullPointerException and any other value ClassCastException; under any other key the value is stored as `String.valueOf` |
| Redaction.SensitiveKeyMatchesPattern | container/src/main/java/com/streamsets/datacollector/lineage/LineageEventImpl.java:46 | the scan used for the key test accepts exactly the keys that `.*password.*` (case-insensitive, no DOTALL) matches as a whole |
| Redaction.LineTerminatorDefeatsPattern | container/src/main/java/com/streamsets/datacollector/lineage/LineageEventImpl.java:46 | a key holding a line terminator is never sensitive, so its value is stored unmasked |
| Redaction.MaskHidesValue | container/src/main/java/com/streamsets/datacollector/lineage/LineageEventImpl.java:98 | the mask equals the value exactly when the value is all asterisks |
| Redaction.RawSecretNeverStored | container/src/main/java/com/streamsets/datacollector/lineage/LineageEventImpl.java:97-98 | a sensitive value with any character other than an asterisk is never stored as itself |
| Redaction.MasksDbPassword | container/src/main/java/com/streamsets/datacollector/lineage/LineageEventImpl.java:97-98 | "DB_PASSWORD" with "secret12" is stored as eight asterisks |
| LineageEventImpl.RedactedParameters | container/src/main/java/com/streamsets/datacollector/lineage/LineageEventImpl.java:95-103 | the stored entries have exactly the parameters' keys; sensitive ones are all asterisks of the value's length, the rest `String.valueOf` the value |
| LineageEventImpl.ParameterErrorsEmptyIff | container/src/main/java/com/streamsets/datacollector/lineage/LineageEventImpl.java:95-103 | storing the parameters can throw exactly when some parameter cannot be redacted |
| LineageEventImpl.StoreParameters | container/src/main/java/com/streamsets/datacollector/lineage/LineageEventImpl.java:94-103 | the loop succeeds exactly when every parameter can be redacted, and then yields the properties written so far overridden by every redacted parameter; otherwise it throws one of the parameters' exceptions |
| LineageEventImpl.ConstructionErrors | container/src/main/java/com/streamsets/datacollector/lineage/LineageEventImpl.java:81-103 | the constructor's possible exceptions are none exactly when construction succeeds |
| LineageEventImpl.ConstructedProperties | container/src/main/java/com/streamsets/datacollector/lineage/LineageEventImpl.java:83-103 | the properties hold the version label and every parameter key; sensitive keys hold the mask of a String value, the others `String.valueOf` the value |
| LineageEventImpl.SecretsNeverStored | container/src/main/java/com/streamsets/datacollector/lineage/LineageEventImpl.java:95-103 | after construction no sensitive parameter's raw value (unless all asterisks) is among the properties under its key |
| LineageTypes.ParseEventType | container/src/main/java/com/streamsets/datacollector/lineage/LineageEventImpl.java:108 | `valueOf` succeeds only on a constant's exact name, null throws NullPointerException and any other name IllegalArgumentException |
| LineageTypes.EventTypeRoundTrip | container/src/main/java/com/streamsets/datacollector/lineage/LineageEventImpl.java:65 | parsing the stored name of an event type gives that type |
| JavaLang.ParseLong | container/src/main/java/com/streamsets/datacollector/lineage/LineageEventImpl.java:125 | parsing succeeds only on an optional sign followed by digits, the sign deciding the result's sign; an unsigned digit string in range parses to the number it denotes; anything else, null included, throws NumberFormatException; `LongRoundTrip` fixes the value of every string `Long.toString` writes |
| JavaLang.LongRoundTrip | container/src/main/java/com/streamsets/datacollector/lineage/LineageEventImpl.java:68 | parsing what `Long.toString` wrote gives the original 64-bit value back |
| LineageEventImpl.LineageEvent.EventTypeOf | container/src/main/java/com/streamsets/datacollector/lineage/LineageEventImpl.java:106-109 | on a valid event the type parses; a parsed type is the one whose name is stored |
| LineageEventImpl.LineageEvent.PipelineStartTimeOf | container/src/main/java/com/streamsets/datacollector/lineage/LineageEventImpl.java:123-127 | on a valid event the start time parses |
| LineageEventImpl.LineageEvent.TimeStampOf | container/src/main/java/com/streamsets/datacollector/lineage/LineageEventImpl.java:135-139 | on a valid event the timestamp parses |
| LineageEventImpl.LineageEvent.GettersAfterConstruction | container/src/main/java/com/streamsets/datacollector/lineage/LineageEventImpl.java:106-157 | on a freshly built event every getter returns the constructor's argument (the type and start time through their string forms, the timestamp the clock reading, the pipeline id after precedence) |
| LineageEventImpl.LineageEvent.SetSpecificAttribute | container/src/main/java/com/streamsets/datacollector/lineage/LineageEventImpl.java:159-167 | afterwards `getSpecificAttribute` of that name gives the value, every other name reads as before, and the other stores are unchanged |
| LineageEventImpl.LineageEvent.SetTags | container/src/main/java/com/streamsets/datacollector/lineage/LineageEventImpl.java:174-177 | the tags are replaced and nothing else changes |
| LineageEventImpl.LineageEvent.SetProperties | container/src/main/java/com/streamsets/datacollector/lineage/LineageEventImpl.java:184-187 | the properties are replaced and nothing else changes |
| LineageEventImpl.LineageEvent.MissingSpecificAttributes | container/src/main/java/com/streamsets/datacollector/lineage/LineageEventImpl.java:189-214 | fails exactly when the stored type does not parse, with the accessor's exception; otherwise returns exactly the required attributes that are absent, null or empty, which is empty iff every required one is present and non-empty |
| Validation.NothingMissingIff | container/src/main/java/com/streamsets/datacollector/lineage/LineageEventImpl.java:198-213 | nothing is missing iff every required attribute is present with a non-null, non-empty value |
| Validation.AbsentIsMissing | container/src/main/java/com/streamsets/datacollector/lineage/LineageEventImpl.java:198-201 | the attributes left by `removeAll` (required but absent) are among those the loop adds, so the first step adds nothing of its own |
| Validation.SettingSatisfies | container/src/main/java/com/streamsets/datacollector/lineage/LineageEventImpl.java:160-162 | setting a non-empty value takes that attribute off the missing set and changes nothing else in it |
| LineageEventImpl.StartDescriptionValidation | container/src/main/java/com/streamsets/datacollector/lineage/LineageEventImpl.java:76-78 | when START requires only the description, a newly built START event misses the description exactly when it was given null or empty |
| LineageEventImpl.AppendEntries | container/src/main/java/com/streamsets/datacollector/lineage/LineageEventImpl.java:222-227 | the loop visits every key of the map exactly once and appends "key: value " for each, in visit order |
| LineageEventImpl.AppendTags | container/src/main/java/com/streamsets/datacollector/lineage/LineageEventImpl.java:245-249 | appends each tag and a space, in list order |
| LineageEventImpl.LineageEvent.ToText | container/src/main/java/com/streamsets/datacollector/lineage/LineageEventImpl.java:216-252 | throws NullPointerException exactly when the tags are null; otherwise the text is the class name, then the general, specific and properties sections, each entry once in some order, then the tags in list order |

## Left out

- The clock reading at line 72 is the `now` parameter of `Create`.
- The required-attribute registry (`getSpecificAttributes` of the event type) is defined with the enum, which is not part of this model. It is the function parameter `registry`.
- The enums `LineageEventType`, `LineageGeneralAttribute` and `LineageSpecificAttribute` are not part of this model.
  - The event types are START, STOP, ENTITY_READ and ENTITY_WRITE.
  - The general-attribute labels (`getLabel`) stand in as the constant names.
  - Specific attributes other than DESCRIPTION are kept abstract by name.
- MissingSpecificAttributes: returns a set. The order of the `ArrayList` built from the `HashSet` is not modelled.
- MissingSpecificAttributes: the message of the formatted exception at line 195 is not modelled, because the re-call of `getEventType()` throws first.
- ToText: the order of the entries within each section follows HashMap iteration order. It is existential: the ghost outputs name it, and it is not fixed.
- StoreParameters: the iteration order is likewise unspecified. Which parameter's exception is thrown is given as a member of a set.
- Returned `tags` and `properties` are values. Aliasing between the caller's collections and the event's is not modelled.
- Elements of the tags list and of the metadata labels entry are non-null Strings. A list holding null or non-String elements is not modelled, nor are null map keys or a null `Map` passed to `setProperties`.
- Redaction.Mask: counts characters (Unicode scalar values). Java's `length()` counts UTF-16 code units, so a value with characters outside the Basic Multilingual Plane gets fewer asterisks here than in Java.
- JavaLang.ParseLong: accepts ASCII digits only. `Long.parseLong` also accepts other Unicode decimal digits.
- Values of other classes stored under a non-sensitive parameter key are kept as their `toString` text.
- The properties entry under the version label can be overwritten by a parameter with the same key. `ConstructedIdentityPair` therefore assumes no parameter uses that key; `ConstructedProperties` covers the general case.
- `jms-lib/src/main/java/com/streamsets/pipeline/stage/origin/jms/JmsSourceConfig.java` declares configuration fields only and has no behaviour to model.
