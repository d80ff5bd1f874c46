/** The two concrete attribute tables satisfy what the general theorem asks, so
    it holds for the user list and for the group list. */
module FilterTables {
  import opened Text
  import opened ScimGrammar
  import opened SqlText
  import opened Placeholders
  import opened FilterSql
  import opened FilterSqlProofs
  import opened FilterMeaning

  /** Everything the proof asks of one pair of columns: they differ early, and
      `d` differs from a parenthesis followed by `c`. */
  predicate PairFine(c: string, d: string) {
    && |c| > 3 && |d| > 3
    && (c == d || c[0] != d[0] || c[3] != d[3] || (|c| > 16 && |d| > 16 && c[16] != d[16]))
    && (d[0] != '(' || c[0] != d[1] || c[1] != d[2] || c[2] != d[3] || (|c| > 16 && |d| > 17 && c[16] != d[17]))
  }

  lemma PairApart(c: string, d: string)
    requires PairFine(c, d)
    ensures c != d ==> Apart(c, d)
    ensures Apart("(" + c, d)
  {
    if c != d {
      var i := if c[0] != d[0] then 0 else if c[3] != d[3] then 3 else 16;
      NotPrefix(c, d, i);
      NotPrefix(d, c, i);
    }
    var p := "(" + c;
    var j := if d[0] != '(' then 0 else if c[0] != d[1] then 1 else if c[1] != d[2] then 2 else if c[2] != d[3] then 3
             else 17;
    assert p[j] == if j == 0 then '(' else c[j - 1];
    NotPrefix(p, d, j);
    NotPrefix(d, p, j);
  }

  lemma ReadableFrom(cols: seq<string>)
    requires forall c :: c in cols ==> OpensOnce(c)
    requires forall c, d :: c in cols && d in cols ==> PairFine(c, d)
    ensures Readable(cols)
  {
    forall c, d | c in cols && d in cols
      ensures c != d ==> Apart(c, d)
      ensures Apart("(" + c, d)
    {
      PairApart(c, d);
    }
  }

  /** What is asked of one column by itself. */
  predicate ColumnFine(c: string) {
    '$' !in c && StartsPlainly(c) && OpensOnce(c)
  }

  lemma UserColumnFine(i: nat)
    requires i < |UserColumns|
    ensures ColumnFine(UserColumns[i])
  {
  }

  lemma UserColumnsReadable()
    ensures Readable(UserColumns) && forall c :: c in UserColumns ==> ColumnFine(c)
  {
    forall c | c in UserColumns
      ensures ColumnFine(c)
    {
      var i :| 0 <= i < |UserColumns| && UserColumns[i] == c;
      UserColumnFine(i);
    }
    forall i, j | 0 <= i < |UserColumns| && 0 <= j < |UserColumns|
      ensures PairFine(UserColumns[i], UserColumns[j])
    {
    }
    ReadableFrom(UserColumns);
  }

  lemma GroupColumnsReadable()
    ensures Readable(GroupColumns) && forall c :: c in GroupColumns ==> c in UserColumns
  {
    UserColumnsReadable();
    assert GroupColumns[0] == UserColumns[1] && GroupColumns[1..] == UserColumns[4..];
    forall c | c in GroupColumns
      ensures c in UserColumns
    {
      if c != GroupColumns[0] {
        assert c in GroupColumns[1..];
      }
    }
    assert forall c :: c in GroupColumns ==> OpensOnce(c) by {
      assert forall c :: c in UserColumns ==> ColumnFine(c);
    }
  }

  lemma UserCovers()
    ensures Covers(UserColumns, UserAttrs) && HasBase(UserColumns)
  {
    assert UserColumns[0] == UserAttrs["username"].sql;
    assert UserColumns[1] == UserAttrs["displayname"].sql;
    assert UserColumns[2] == UserAttrs["active"].sql;
    assert UserColumns[3] == UserAttrs["emails.value"].sql;
    assert UserColumns[4] == UserAttrs["id"].sql;
    assert UserColumns[5] == UserAttrs["externalid"].sql;
    assert UserColumns[6] == "t.type_name" && UserColumns[7] == "ei.provider_name";
  }

  lemma GroupCovers()
    ensures Covers(GroupColumns, GroupAttrs) && HasBase(GroupColumns)
  {
    assert GroupColumns[0] == GroupAttrs["displayname"].sql;
    assert GroupColumns[1] == GroupAttrs["id"].sql;
    assert GroupColumns[2] == GroupAttrs["externalid"].sql;
    assert GroupColumns[3] == "t.type_name" && GroupColumns[4] == "ei.provider_name";
  }

  lemma FitsFrom(table: AttrTable, cols: seq<string>)
    requires Readable(cols) && HasBase(cols) && Covers(cols, table) && TextColumns(table)
    requires forall c :: c in cols ==> ColumnFine(c)
    ensures TableFits(table, cols)
  {
  }

  lemma UserTextColumns()
    ensures TextColumns(UserAttrs)
  {
    assert IsBoolColumn(UserAttrs["active"].sql);
    forall c | c in [UserAttrs["username"].sql, UserAttrs["displayname"].sql, UserAttrs["emails.value"].sql,
                     UserAttrs["id"].sql, UserAttrs["externalid"].sql]
      ensures !IsBoolColumn(c)
    {
      assert c[|c| - 1] != "::bool"[5];
    }
  }

  lemma UserTableFits()
    ensures TableFits(UserAttrs, UserColumns)
  {
    UserColumnsReadable();
    UserCovers();
    UserTextColumns();
    FitsFrom(UserAttrs, UserColumns);
  }

  lemma GroupTableFits()
    ensures TableFits(GroupAttrs, GroupColumns)
  {
    UserColumnsReadable();
    GroupColumnsReadable();
    GroupCovers();
    UserTextColumns();
    assert forall attr :: attr in GroupAttrs ==> attr in UserAttrs && GroupAttrs[attr] == UserAttrs[attr];
    FitsFrom(GroupAttrs, GroupColumns);
  }

  /** The user list is rejected exactly if the driver rejects a value of the filter;
      otherwise it selects exactly the caller's users on which the filter is true. */
  lemma UserListSelects(e: Expr, provider: string, row: Row, eng: Engine)
    requires ErrorOf(e, UserAttrs).None? && |ArgsOf(e)| + 2 < TWO_63 && RowTyped(row, UserAttrs)
    ensures var t := Evaluate(WhereOf("User", TextOf(e, UserAttrs, 0)), UserColumns, row,
                              [StringValue(provider)] + ArgsOf(e), eng);
            && (t.Some? <==> ValuesAccepted(e, UserAttrs, eng))
            && (t.Some? ==> (t == Some(Yes) <==>
                             Owned(row, "User", provider) && FilterTruth(e, UserAttrs, row, eng) == Yes))
  {
    UserTableFits();
    WhereSelects(e, "User", UserAttrs, UserColumns, provider, row, eng);
  }

  /** Likewise the group list. */
  lemma GroupListSelects(e: Expr, provider: string, row: Row, eng: Engine)
    requires ErrorOf(e, GroupAttrs).None? && |ArgsOf(e)| + 2 < TWO_63 && RowTyped(row, GroupAttrs)
    ensures var t := Evaluate(WhereOf("Group", TextOf(e, GroupAttrs, 0)), GroupColumns, row,
                              [StringValue(provider)] + ArgsOf(e), eng);
            && (t.Some? <==> ValuesAccepted(e, GroupAttrs, eng))
            && (t.Some? ==> (t == Some(Yes) <==>
                             Owned(row, "Group", provider) && FilterTruth(e, GroupAttrs, row, eng) == Yes))
  {
    GroupTableFits();
    WhereSelects(e, "Group", GroupAttrs, GroupColumns, provider, row, eng);
  }

  /** The placeholders of the two page queries. */
  lemma UserPageDollars(e: Expr)
    requires ErrorOf(e, UserAttrs).None? && |ArgsOf(e)| + 3 < TWO_63
    ensures Dollars(WhereOf("User", TextOf(e, UserAttrs, 0)) + PageTail(1 + |ArgsOf(e)|)) == Count(1, 3 + |ArgsOf(e)|)
  {
    UserTableFits();
    assert '$' !in "User";
    PageDollars(e, "User", UserAttrs, UserColumns);
  }

  lemma GroupPageDollars(e: Expr)
    requires ErrorOf(e, GroupAttrs).None? && |ArgsOf(e)| + 3 < TWO_63
    ensures Dollars(WhereOf("Group", TextOf(e, GroupAttrs, 0)) + PageTail(1 + |ArgsOf(e)|)) == Count(1, 3 + |ArgsOf(e)|)
  {
    GroupTableFits();
    assert '$' !in "Group";
    PageDollars(e, "Group", GroupAttrs, GroupColumns);
  }
}
