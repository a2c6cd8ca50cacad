/**
 * The admin area's newsletter pages (Areas/Admin/Controllers/SubscribersController.cs):
 * the subscriber list, delete, and the CSV download of active subscribers.
 */
module AdminSubscribers {
  import opened Optional
  import opened Text
  import opened Clock
  import opened Entities
  import opened Store
  import opened Ordering
  import opened Listings
  import opened Admin

  /** `Index`: every subscriber, the most recent first. */
  function Index(t: Tables): (r: seq<NewsletterSubscriber>)
    ensures multiset(r) == multiset(t.subscribers)
    ensures forall i, j :: 0 <= i < j < |r| ==> r[i].subscribedAt >= r[j].subscribedAt
  {
    NewestFirst(t.subscribers, (s: NewsletterSubscriber) => s.subscribedAt)
  }

  // ------------------------------------------------------------ delete

  /** `Delete(id)`. */
  function Deleted(t: Tables, id: int): (r: Response)
    ensures r.outcome == NotFound <==> !HasId(t.subscribers, SubscriberId, id)
    ensures r.outcome != Saved ==> r.tables == t
    ensures r.outcome == Saved ==> r.tables == RemoveSubscriber(t, id)
  {
    if !HasId(t.subscribers, SubscriberId, id) then Response(NotFound, t)
    else Commit(t, RemoveSubscriber(t, id))
  }

  /** Deleting a subscriber that exists always succeeds on a consistent store, and only that subscriber goes. */
  lemma DeletedAlwaysSaves(t: Tables, id: int)
    requires Consistent(t) && HasId(t.subscribers, SubscriberId, id)
    ensures Deleted(t, id) == Response(Saved, RemoveSubscriber(t, id))
    ensures Consistent(Deleted(t, id).tables)
    ensures forall s :: s in Deleted(t, id).tables.subscribers <==> s in t.subscribers && s.id != id
  {
    RemoveSubscriberConsistent(t, id);
    var r := RemoveSubscriber(t, id);
    forall s | s in t.subscribers && s.id != id ensures s in r.subscribers {
      var k :| 0 <= k < |t.subscribers| && t.subscribers[k] == s;
    }
    forall s | s in r.subscribers ensures s in t.subscribers && s.id != id {
      var k :| 0 <= k < |r.subscribers| && r.subscribers[k] == s;
    }
  }

  method Delete(db: ApplicationDbContext, id: int) returns (outcome: Outcome)
    requires db.Valid()
    modifies db
    ensures Response(outcome, db.State()) == Deleted(old(db.State()), id)
  {
    var t := db.State();
    if Find(t.subscribers, SubscriberId, id).None? {
      return NotFound;
    }
    RemoveSubscriberConsistent(t, id);
    var ok := db.SaveChanges(RemoveSubscriber(t, id));
    outcome := if ok then Saved else ServerError;
  }

  // ------------------------------------------------------------ CSV export

  const CsvHeader: string := "Email,Name,SubscribedAt\n"

  /** The subscribers the export lists: the active ones, the most recent first. */
  function ExportRows(t: Tables): (r: seq<NewsletterSubscriber>)
    ensures forall s :: s in r <==> s in t.subscribers && s.isActive
    ensures forall s :: multiset(r)[s] == if s.isActive then multiset(t.subscribers)[s] else 0
    ensures forall i, j :: 0 <= i < j < |r| ==> r[i].subscribedAt >= r[j].subscribedAt
  {
    var active := Filter(t.subscribers, (s: NewsletterSubscriber) => s.isActive);
    var r := NewestFirst(active, (s: NewsletterSubscriber) => s.subscribedAt);
    FilterMembers(t.subscribers, (s: NewsletterSubscriber) => s.isActive);
    FilterCounts(t.subscribers, (s: NewsletterSubscriber) => s.isActive);
    assert forall s :: s in r <==> s in multiset(active);
    r
  }

  /** One line of the file: email, name (empty when missing) and the subscription minute, comma-separated without quoting. */
  function CsvRow(s: NewsletterSubscriber): (r: string)
    ensures |r| == |s.email| + |s.name.GetOr("")| + 18
  {
    s.email + "," + s.name.GetOr("") + "," + FormatMinute(s.subscribedAt)
  }

  /** `ExportCsv`: the header line, then the rows joined by newlines, with no newline after the last. */
  function ExportCsv(t: Tables): (r: string)
    ensures StartsWith(r, CsvHeader)
  {
    CsvHeader + Join("\n", Select(ExportRows(t), CsvRow))
  }

  /** The timestamp column holds only digits, '-', ' ' and ':'. */
  lemma MinuteChars(t: Instant)
    ensures forall i :: 0 <= i < |FormatMinute(t)| ==>
      IsDigit(FormatMinute(t)[i]) || FormatMinute(t)[i] in "- :"
  {
    var r := FormatMinute(t);
    var d := FormatDate(t);
    forall i | 0 <= i < |r| ensures IsDigit(r[i]) || r[i] in "- :" {
      if i < 4 {
        assert r[i] == d[..4][i];
      } else if 5 <= i < 7 {
        assert r[i] == d[5..7][i - 5];
      } else if 8 <= i < 10 {
        assert r[i] == d[8..][i - 8];
      } else if 11 <= i < 13 {
        assert r[i] == r[11..13][i - 11];
      } else if 14 <= i {
        assert r[i] == r[14..][i - 14];
      } else if i < 10 {
        assert r[i] == d[i];
      }
    }
  }

  predicate NoChar(s: string, c: char) {
    forall i :: 0 <= i < |s| ==> s[i] != c
  }

  /** Joining three pieces puts the separator between each pair. */
  lemma JoinThree(a: string, b: string, c: string, sep: char)
    ensures Join([sep], [a, b, c]) == a + [sep] + b + [sep] + c
  {
    var cols := [a, b, c];
    assert cols[1..] == [b, c] && cols[1..][1..] == [c];
    assert Join([sep], [b, c]) == b + [sep] + c;
    assert Join([sep], cols) == a + [sep] + (b + [sep] + c);
  }

  /** A row read back by splitting on ',' gives its three columns, as long as the email and name hold no comma. */
  lemma RowColumns(s: NewsletterSubscriber)
    requires NoChar(s.email, ',') && NoChar(s.name.GetOr(""), ',')
    ensures Split(CsvRow(s), ',') == [s.email, s.name.GetOr(""), FormatMinute(s.subscribedAt)]
  {
    var minute := FormatMinute(s.subscribedAt);
    MinuteChars(s.subscribedAt);
    assert NoChar(minute, ',');
    var cols := [s.email, s.name.GetOr(""), minute];
    JoinThree(s.email, s.name.GetOr(""), minute, ',');
    SplitJoin(cols, ',');
  }

  /** No column of any row holds a newline when the email and name hold none. */
  lemma RowHasNoNewline(s: NewsletterSubscriber)
    requires NoChar(s.email, '\n') && NoChar(s.name.GetOr(""), '\n')
    ensures NoChar(CsvRow(s), '\n')
  {
    MinuteChars(s.subscribedAt);
    var r := CsvRow(s);
    var a := |s.email|;
    var b := a + 1 + |s.name.GetOr("")|;
    forall i | 0 <= i < |r| ensures r[i] != '\n' {
      if i < a {
        assert r[i] == s.email[i];
      } else if a < i < b {
        assert r[i] == s.name.GetOr("")[i - a - 1];
      } else if b < i {
        assert r[i] == FormatMinute(s.subscribedAt)[i - b - 1];
      }
    }
  }

  /**
   * Reading the file back line by line: after the header, splitting on
   * newlines gives exactly one row per active subscriber, in export order,
   * provided no email or name holds a newline.
   */
  lemma ExportCsvLines(t: Tables)
    requires forall s :: s in t.subscribers ==> NoChar(s.email, '\n') && NoChar(s.name.GetOr(""), '\n')
    requires ExportRows(t) != []
    ensures Split(ExportCsv(t)[|CsvHeader|..], '\n') == Select(ExportRows(t), CsvRow)
  {
    var rows := Select(ExportRows(t), CsvRow);
    forall k, i | 0 <= k < |rows| && 0 <= i < |rows[k]| ensures rows[k][i] != '\n' {
      RowHasNoNewline(ExportRows(t)[k]);
    }
    assert ExportCsv(t)[|CsvHeader|..] == Join("\n", rows);
    SplitJoin(rows, '\n');
  }

  /** The file is the bare header exactly when no subscriber is active. */
  lemma ExportCsvHeaderOnly(t: Tables)
    ensures ExportCsv(t) == CsvHeader <==> forall s :: s in t.subscribers ==> !s.isActive
  {
    var rows := Select(ExportRows(t), CsvRow);
    if ExportRows(t) != [] {
      assert ExportRows(t)[0] in ExportRows(t);
      assert |rows[0]| > 0;
      assert |Join("\n", rows)| > 0 by {
        if |rows| > 1 {
          assert Join("\n", rows) == rows[0] + "\n" + Join("\n", rows[1..]);
        }
      }
      assert |ExportCsv(t)| > |CsvHeader|;
    }
  }
}
