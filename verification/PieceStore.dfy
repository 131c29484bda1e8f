/**
 The statements that write the rows of pieces: CreatePiece and UpdatePiece in
 internal/app/service.go and the metadata of FinalizeImport in internal/app/imports.go, column
 by column as each INSERT and UPDATE lists them, proved against the transactions of LibraryRows.
 */
module PieceStores {
  import opened Wrappers
  import opened SearchStrings
  import opened SearchIndexes
  import opened LibraryRows
  import V = LibraryViews

  // What a request or a draft says about a piece.
  datatype PieceInput = PieceInput(opus: string, key: string, title: string, composer: string, favorite: bool,
                                   status: Option<V.Status>, source: string, listening: string, notes: string,
                                   aliases: string)
  {
    function Fields(): Fields { LibraryRows.Fields.Fields(title, composer, source, listening, notes, favorite) }

    function Details(): Details { LibraryRows.Details.Details(aliases, opus, key) }
  }

  // What library search matches for an input.
  function InputSearchText(rules: Rules, input: PieceInput): string {
    SearchIndex([rules.normalise(input.title), rules.normalise(input.composer), rules.normalise(input.aliases),
                 rules.normalise(input.notes), rules.normalise(input.opus), rules.normalise(input.key)])
  }

  lemma InputIsSearched(rules: Rules, input: PieceInput)
    ensures InputSearchText(rules, input) == SearchText(rules, input.Fields(), input.Details())
  {
    hide SearchIndex;
  }

  // A row as the database fills it in when only these columns are given.
  function Defaulted(owner: string, title: string): Row {
    Row(owner, LibraryRows.Fields.Fields(title, "", "", "", "", false), LibraryRows.Details.Details("", "", ""), V.Playing,
        "", "", "", 0)
  }

  // Whether a finalisation is accepted.
  predicate Finalizes(l: Library, draft: Id, fits: bool) {
    && draft in l.drafts
    && var d := l.drafts[draft];
       if d.piece.None? then Validated(d.fields, fits).Some?
       else d.piece.value in l.rows && FinalFields(l.rows[d.piece.value], d, fits).Some?
  }

  class PieceStore {
    const rules: Rules
    var library: Library

    constructor (rules: Rules, library: Library)
      ensures this.rules == rules && this.library == library
    {
      this.rules, this.library := rules, library;
    }

    // fits says that lengths and links pass.
    method ValidatePiece(input: PieceInput, fits: bool) returns (r: Option<PieceInput>)
      ensures r.Some? <==> Validated(input.Fields(), fits).Some?
      ensures r.Some? ==> Some(r.value.Fields()) == Validated(input.Fields(), fits)
                          && r.value.Details() == TrimDetails(input.Details()) && r.value.status == input.status
    {
      hide TrimSpace;
      var v := input;
      v := v.(opus := TrimSpace(v.opus));
      v := v.(key := TrimSpace(v.key));
      v := v.(title := TrimSpace(v.title));
      v := v.(composer := TrimSpace(v.composer));
      v := v.(source := TrimSpace(v.source));
      v := v.(listening := TrimSpace(v.listening));
      v := v.(notes := TrimSpace(v.notes));
      if v.title == "" || !fits {
        return None;
      }
      v := v.(aliases := TrimSpace(v.aliases));
      return Some(v);
    }

    method CreatePiece(id: Id, owner: string, given: PieceInput, fits: bool) returns (ok: bool)
      requires id !in library.rows
      modifies this`library
      ensures var c := Create(id, owner, given.Fields(), given.Details(), given.status, fits);
              ok == Created(rules, c).Some? && library == Next(rules, old(library), c)
    {
      hide TrimSpace, SearchText, InputSearchText;
      var input := given;
      if input.status.None? {
        input := input.(status := Some(V.Playing));
      }
      var valid := ValidatePiece(input, fits);
      if valid.None? {
        return false;
      }
      input := valid.value;
      InputIsSearched(rules, input);
      var row := Row(owner,
                     LibraryRows.Fields.Fields(input.title, input.composer, input.source, input.listening, input.notes, input.favorite),
                     LibraryRows.Details.Details(input.aliases, input.opus, input.key), input.status.value,
                     InputSearchText(rules, input), rules.sortKey(input.composer), input.composer, KEY_VERSION);
      library := library.(rows := library.rows[id := row]);
      return true;
    }

    method UpdatePiece(id: Id, patch: Patch, fits: bool) returns (ok: bool)
      modifies this`library
      ensures ok == (id in old(library).rows && Updated(rules, old(library).rows[id], patch, fits).Some?)
      ensures library == Next(rules, old(library), Update(id, patch, fits))
    {
      hide TrimSpace, SearchText, InputSearchText;
      if id !in library.rows {
        return false;
      }
      var current := library.rows[id];
      var input := PieceInput(current.details.opus, current.details.key, current.fields.title, current.fields.composer,
                              current.fields.favorite, Some(current.status), current.fields.source,
                              current.fields.listening, current.fields.notes, current.details.aliases);
      input := Patched(input, patch);
      var valid := ValidatePiece(input, fits);
      if valid.None? {
        return false;
      }
      input := valid.value;
      InputIsSearched(rules, input);
      var fields := current.fields.(title := input.title, composer := input.composer, favorite := input.favorite,
                                    source := input.source, listening := input.listening, notes := input.notes);
      var details := current.details.(aliases := input.aliases, opus := input.opus, key := input.key);
      var row := current.(fields := fields, status := input.status.value, details := details,
                          search := InputSearchText(rules, input), sort := rules.sortKey(input.composer),
                          sortSource := input.composer, sortVersion := KEY_VERSION);
      library := library.(rows := library.rows[id := row]);
      return true;
    }

    method Patched(given: PieceInput, patch: Patch) returns (input: PieceInput)
      ensures input.Fields() == PatchedFields(patch, given.Fields())
      ensures input.Details() == PatchedDetails(patch, given.Details())
      ensures input.status == if patch.status.Some? then patch.status else given.status
    {
      input := given;
      if patch.opus.Some? {
        input := input.(opus := patch.opus.value);
      }
      if patch.key.Some? {
        input := input.(key := patch.key.value);
      }
      input := PatchedTexts(input, patch);
      if patch.status.Some? {
        input := input.(status := patch.status);
      }
      if patch.aliases.Some? {
        input := input.(aliases := patch.aliases.value);
      }
    }

    method PatchedTexts(given: PieceInput, patch: Patch) returns (input: PieceInput)
      ensures input.Fields() == PatchedFields(patch, given.Fields())
      ensures input.Details() == given.Details() && input.status == given.status
    {
      input := given;
      if patch.title.Some? {
        input := input.(title := patch.title.value);
      }
      if patch.composer.Some? {
        input := input.(composer := patch.composer.value);
      }
      if patch.favorite.Some? {
        input := input.(favorite := patch.favorite.value);
      }
      if patch.source.Some? {
        input := input.(source := patch.source.value);
      }
      if patch.listening.Some? {
        input := input.(listening := patch.listening.value);
      }
      if patch.notes.Some? {
        input := input.(notes := patch.notes.value);
      }
    }

    method MergeDraftMetadata(current: PieceInput, base: Fields, draft: PieceInput) returns (merged: PieceInput)
      ensures merged.Fields() == Merged(current.Fields(), base, draft.Fields())
    {
      merged := PieceInput("", "", Picked(current.title, base.title, draft.title),
                           Picked(current.composer, base.composer, draft.composer), current.favorite, None,
                           Picked(current.source, base.source, draft.source),
                           Picked(current.listening, base.listening, draft.listening),
                           Picked(current.notes, base.notes, draft.notes), "");
      if draft.favorite != base.favorite {
        merged := merged.(favorite := draft.favorite);
      }
    }

    // The metadata a finalisation saves, with the aliases, opus and key the piece has: the
    // UPDATE writes a search text made of them, but not their columns.
    method FinalizeMetadata(draft: Id, newPiece: Id, owner: string, fits: bool) returns (ok: bool)
      requires newPiece !in library.rows
      modifies this`library
      ensures library == Next(rules, old(library), Finalize(draft, newPiece, owner, fits))
      ensures ok == Finalizes(old(library), draft, fits)
    {
      hide TrimSpace, SearchText, InputSearchText;
      if draft !in library.drafts {
        return false;
      }
      var d := library.drafts[draft];
      var stored := PieceInput("", "", d.fields.title, d.fields.composer, d.fields.favorite, None, d.fields.source,
                               d.fields.listening, d.fields.notes, "");
      var valid := ValidatePiece(stored, fits);
      if valid.None? {
        return false;
      }
      var metadata := valid.value;
      var aliases, opus, key := "", "", "";
      var tx, id := library.rows, newPiece;
      if d.piece.Some? {
        id := d.piece.value;
        if id !in tx {
          return false;
        }
        var row := tx[id];
        var current := PieceInput("", "", row.fields.title, row.fields.composer, row.fields.favorite, None,
                                  row.fields.source, row.fields.listening, row.fields.notes, "");
        aliases, opus, key := row.details.aliases, row.details.opus, row.details.key;
        if d.base.Some? {
          var merged := MergeDraftMetadata(current, d.base.value, metadata);
          valid := ValidatePiece(merged, fits);
          if valid.None? {
            return false;
          }
          metadata := valid.value;
        } else if metadata.Fields() != current.Fields() {
          return false;
        }
      } else {
        tx := tx[id := Defaulted(owner, metadata.title)];
      }
      metadata := metadata.(aliases := aliases, opus := opus, key := key);
      InputIsSearched(rules, metadata);
      var before := tx[id];
      var fields := before.fields.(title := metadata.title, composer := metadata.composer, favorite := metadata.favorite,
                                   source := metadata.source, listening := metadata.listening, notes := metadata.notes);
      tx := tx[id := before.(fields := fields, search := InputSearchText(rules, metadata),
                             sort := rules.sortKey(metadata.composer), sortSource := metadata.composer,
                             sortVersion := KEY_VERSION)];
      library := library.(rows := tx);
      return true;
    }
  }
}
