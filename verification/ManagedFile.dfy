/** writeFile of internal/directives/write.go over a file that may be missing. */
module ManagedFile {
  import opened Results
  import opened Text
  import opened ManagedRegion

  datatype Outcome = Created | Skipped | Withheld | Refreshed

  /** A file on disk. The temp-file write is one step here. */
  class File {
    var content: Option<string>

    constructor (content: Option<string>)
      ensures this.content == content
    {
      this.content := content;
    }

    method Write(m: Markers, body: string, force: bool) returns (r: Result<Outcome, MergeError>)
      requires Apart(m)
      modifies this
      ensures r == WriteOutcome(m, old(content), body, force)
      ensures content == WriteContent(m, old(content), body, force)
    {
      MergeIsOkIff(m, content, body);
      match content
      case None =>
        content := Some(body);
        return Ok(Created);
      case Some(existing) =>
        var merged := MergeManaged(m, existing, body);
        if merged.Err? {
          return Err(merged.error);
        }
        if merged.value == existing {
          return Ok(Skipped);
        }
        if !HasMarkers(m, existing) && !force {
          return Ok(Withheld);
        }
        content := Some(merged.value);
        return Ok(Refreshed);
    }
  }

  /** What a write reports: only the managed region may be replaced unasked. */
  function WriteOutcome(m: Markers, content: Option<string>, body: string, force: bool): Result<Outcome, MergeError>
    requires Apart(m)
  {
    match content
    case None => Ok(Created)
    case Some(e) =>
      if HasMarkers(m, e) then
        if !HasMarkers(m, body) then Err(if Index(body, m.start) < 0 then NoStartMarker else NoEndMarker)
        else if Region(m, e) == Region(m, body) then Ok(Skipped)
        else Ok(Refreshed)
      else if e == body then Ok(Skipped)
      else if force then Ok(Refreshed)
      else Ok(Withheld)
  }

  /** What a write leaves behind. */
  function WriteContent(m: Markers, content: Option<string>, body: string, force: bool): Option<string>
    requires Apart(m)
  {
    var r := WriteOutcome(m, content, body, force);
    if r.Err? || r.value == Skipped || r.value == Withheld then content
    else if content.Some? && HasMarkers(m, content.value)
      then Some(Before(m, content.value) + Region(m, body) + Behind(m, content.value))
    else Some(body)
  }

  /** The merge of the code, seen through its parts. */
  lemma MergeIsOkIff(m: Markers, content: Option<string>, body: string)
    requires Apart(m)
    ensures content.Some? ==>
      var e := content.value;
      var merged := MergeManaged(m, e, body);
      if HasMarkers(m, e) then
        if HasMarkers(m, body)
        then merged == Ok(Before(m, e) + Region(m, body) + Behind(m, e))
             && (merged.value == e <==> Region(m, e) == Region(m, body))
        else merged == Err(if Index(body, m.start) < 0 then NoStartMarker else NoEndMarker)
      else merged == Ok(body)
  {
    if content.Some? && HasMarkers(m, content.value) {
      if HasMarkers(m, body) {
        MergeSplices(m, content.value, body);
        GetPut(m, content.value, body);
      } else {
        MergeFails(m, content.value, body);
      }
    }
  }

  /** Unforced, a write never changes what an existing file holds outside its managed region, and
      a file without a region not at all. */
  lemma UnforcedKeepsProse(m: Markers, existing: string, body: string)
    requires Apart(m)
    ensures var now := WriteContent(m, Some(existing), body, false);
            now != Some(existing) ==>
              && now.Some? && HasMarkers(m, existing) && HasMarkers(m, now.value)
              && Before(m, now.value) == Before(m, existing)
              && Behind(m, now.value) == Behind(m, existing)
              && Region(m, now.value) == Region(m, body)
  {
    if HasMarkers(m, existing) && HasMarkers(m, body) {
      MergePutsRegion(m, existing, body);
    }
  }

  /** Once a write went through, writing the same body again changes nothing; a withheld one is
      withheld until forced, and then the file is the body. */
  lemma WriteAgain(m: Markers, content: Option<string>, body: string, force: bool, again: bool)
    requires Apart(m) && HasMarkers(m, body)
    ensures var r := WriteOutcome(m, content, body, force);
            var now := WriteContent(m, content, body, force);
            && r.Ok?
            && (r.value != Withheld ==>
                  WriteOutcome(m, now, body, again) == Ok(Skipped) && WriteContent(m, now, body, again) == now)
            && (r.value == Withheld ==>
                  && now == content
                  && WriteOutcome(m, now, body, again) == Ok(if again then Refreshed else Withheld)
                  && WriteContent(m, now, body, again) == if again then Some(body) else content)
  {
    if content.Some? && HasMarkers(m, content.value) {
      MergePutsRegion(m, content.value, body);
    }
  }

  /** A missing file is created with the body, whatever the body is. */
  lemma MissingIsCreated(m: Markers, body: string, force: bool)
    requires Apart(m)
    ensures WriteOutcome(m, None, body, force) == Ok(Created) && WriteContent(m, None, body, force) == Some(body)
  {
  }

  /** A file without a region is replaced when it is forced, and otherwise left alone. */
  lemma ProseIsForced(m: Markers, existing: string, body: string, force: bool)
    requires Apart(m) && !HasMarkers(m, existing) && existing != body
    ensures force ==> WriteOutcome(m, Some(existing), body, force) == Ok(Refreshed)
                      && WriteContent(m, Some(existing), body, force) == Some(body)
    ensures !force ==> WriteOutcome(m, Some(existing), body, force) == Ok(Withheld)
                       && WriteContent(m, Some(existing), body, force) == Some(existing)
  {
  }

  /** A file that already is the body, or holds its region, is left alone and so reported. */
  lemma SameIsSkipped(m: Markers, existing: string, body: string, force: bool)
    requires Apart(m)
    requires if HasMarkers(m, existing) then HasMarkers(m, body) && Region(m, existing) == Region(m, body)
             else existing == body
    ensures WriteOutcome(m, Some(existing), body, force) == Ok(Skipped)
            && WriteContent(m, Some(existing), body, force) == Some(existing)
  {
  }

  /** Otherwise a region is refreshed, forced or not, between what stands around it. */
  lemma RegionIsRefreshed(m: Markers, existing: string, body: string, force: bool)
    requires Apart(m) && HasMarkers(m, existing) && HasMarkers(m, body) && Region(m, existing) != Region(m, body)
    ensures WriteOutcome(m, Some(existing), body, force) == Ok(Refreshed)
    ensures WriteContent(m, Some(existing), body, force)
            == Some(Before(m, existing) + Region(m, body) + Behind(m, existing))
  {
  }

  /** A body without a region is an error for a file with one, and leaves it alone. */
  lemma BodyWithoutRegion(m: Markers, existing: string, body: string, force: bool)
    requires Apart(m) && HasMarkers(m, existing) && !HasMarkers(m, body)
    ensures WriteOutcome(m, Some(existing), body, force)
            == Err(if Index(body, m.start) == -1 then NoStartMarker else NoEndMarker)
    ensures WriteContent(m, Some(existing), body, force) == Some(existing)
  {
    IndexFirst(body, m.start);
  }
}
